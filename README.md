# Weather dashboard: the search workflow

This project models the search workflow of the weather dashboard's single
React component, `App` in `src/App.js`. A search by city name
(`fetchWeather`) asks the weather service for the current conditions. Only
when that reply has status 200 does it ask for the 3-hourly forecast. From
the forecast it builds one chart point per day, and on full success it moves
the city to the front of the recent-city list. That list holds at most five
names and is also written to local storage. A search by position
(`getLocationWeather`) resolves the device's coordinates to a place name and
then runs the same name search.

Files and modules:

- `upstream.dfy`, module `Upstream`: the reply shapes the workflow reads, and
  the strict status test `data.cod !== 200`. The number 200 passes; the
  string `"200"` and a missing `cod` do not.
- `recent.dfy`, module `Recent`: the recent-city update of line 59 as the pure
  function `RecordUse`, with lemmas for its head, bound, single occurrence,
  order, idempotence and absence of repeats. A fold `RecordAll` gives the
  "five most recent, most recent first" property.
- `forecast.dfy`, module `Forecast`: the sampling of lines 50-55 as the pure
  function `Sample`. It is proved to have ceil(n/8) points, point `k` coming
  from entry `8k`, with the date part taken before the first space.
- `workflow.dfy`, module `Workflow`: a `View` snapshot of the component's
  state and the pure functions `Search` and `Locate`, whose contracts state
  the ordering and clearing rules. The class `App` has the fields `city`,
  `weather`, `forecast`, `recentCities` and `stored`. Its methods
  `FetchWeather` and `LocateWeather` update those fields step by step as the
  source does, and are proved to reach exactly the state that `Search` or
  `Locate` gives.

Every request is modelled as its outcome, passed in as a parameter:
`Fetched<T>` is `Replied(body)` or `Threw` (the `fetch` or the JSON decoding
raised). The source makes its status decision on the reply's `cod` field, so
that field is part of the reply and the check is modelled, not assumed. A
forecast reply is `ForecastMissing` (its `list` is falsy) or
`ForecastList(entries)`. Numbers in replies are kept as their literal text and
never interpreted. The local-storage value is `Option<seq<string>>`: absent
until first written, then the list last written.

Some behaviours of the code that are easy to miss:

- A forecast feed of 1 to 7 entries gives one chart point: entry 0 is always
  kept.
- Only the empty string is rejected before a request. A blank string such as
  `" "` is searched.
- The recent list is updated only when the forecast reply has a `list`. A
  successful current-weather reply alone does not update it. An empty `list` is
  truthy in JavaScript, so it still updates the recent list and gives an empty
  chart.
- A forecast request that throws lands in the same `catch` block, so it also
  clears the weather that was just set.
- The search by position sets `weather` and the search-box text from the
  coordinate reply before the name search starts. If the resolved name is the
  empty string, the name search does nothing and that weather stays.
- A failed coordinate lookup changes nothing: weather and chart are not
  cleared.

## Model

| member | source | states |
|---|---|---|
| Upstream.StatusOk | src/App.js:31 | the strict test `cod !== 200` (also at line 84): only the number 200 passes |
| Upstream.CurrentOk | src/App.js:31 | the current-weather step succeeds exactly when a reply arrived and its `cod` is the number 200 |
| Recent.Without | src/App.js:59 | the filter removes every occurrence of the searched city and keeps every other name; the result is no longer than the input |
| Recent.Take | src/App.js:59 | `slice(0, n)` gives the first min(n, length) elements, as a prefix of the input |
| Recent.RecordUse | src/App.js:59 | the updated list is non-empty and at most 5 long; it starts with the city, which occurs nowhere else; the rest is the old list with the city removed, cut to fit; no new names appear |
| Recent.RecordUseIdempotent | src/App.js:59 | recording the same city twice gives the same list as recording it once |
| Recent.RecordUseKeepsWellFormed | src/App.js:59 | if the old list has no repeats, the new list has no repeats and at most 5 names |
| Recent.RecordUseKeepsOrder | src/App.js:59 | the names after the searched city keep their relative order from the old list |
| Recent.RecordAllMostRecentFirst | src/App.js:59 | after searches for distinct cities, the list starts with the last min(n, 5) of them, most recent first |
| Recent.RecordAllCapacity | src/App.js:59 | after at least five distinct searches the list is exactly the last five cities, most recent first |
| Recent.RecordUseExtendsLatest | src/App.js:59 | if the list starts with the last j searched cities, most recent first, then searching a new city makes it start with the last j + 1 |
| Recent.RecordUseShiftsPrefix | src/App.js:59 | recording a city not among the first j names puts it first and shifts those j names back by one |
| Recent.WithoutMultiset | src/App.js:59 | the filter keeps every other name exactly as often as it occurred, repeats included, and drops every occurrence of the city |
| Recent.WithoutAbsent | src/App.js:59 | filtering out a name that does not occur leaves the list unchanged |
| Recent.WithoutKeepsDistinct | src/App.js:59 | filtering a list without repeats gives a list without repeats |
| Recent.WithoutIsSubsequence | src/App.js:59 | the filtered list is a subsequence of the input, so order is kept |
| Recent.WithoutKeepsPrefix | src/App.js:59 | if the removed name is not among the first k names, those k names stay in front unchanged |
| Forecast.DatePart | src/App.js:53 | `split(" ")[0]` is the longest prefix without a space: a prefix of the input, containing no space, followed by a space or the end |
| Forecast.KeepEveryEighth | src/App.js:51 | the index filter `i % 8 === 0` over the first n entries; its length and positions are stated by `KeepEveryEighthAt` |
| Forecast.ToPoint | src/App.js:52-55 | maps one entry to a chart point from the date part of its `dt_txt` and its temperature; what that gives per point is stated by `Sample` |
| Forecast.KeepEveryEighthAt | src/App.js:50-51 | filtering the first n entries by index mod 8 keeps ceil(n/8) entries, the k-th being entry 8k |
| Forecast.Sample | src/App.js:50-55 | the chart has ceil(n/8) points; point k has the date part of entry 8k's `dt_txt` and entry 8k's temperature; 1 to 7 entries give one point; a non-empty feed gives a non-empty chart |
| Workflow.Load | src/App.js:12 | the start-up value of the parsed stored list, falling back to the empty list: the stored list, or the empty list when the key is absent |
| Workflow.Search | src/App.js:16-68 | empty input: no request, nothing changes; otherwise the current request comes first, and the forecast request is issued iff the current status is 200; a failed or throwing current step, or a throwing forecast step, clears weather and chart and keeps both lists; a missing forecast list keeps the new weather, empties the chart and keeps both lists; only full success sets the sampled chart, records the city and writes the same list to the store |
| Workflow.Locate | src/App.js:70-101 | no geolocation or a position error: no request, nothing changes; a throwing or non-200 coordinate lookup changes nothing; otherwise the search box shows the resolved name, and an empty name stops there with the coordinate weather shown |
| Workflow.SearchSuccessRecordsCity | src/App.js:59-61 | after full success for c the list starts with c, holds it once, has at most 5 names, keeps the old order, and the store holds the same list |
| Workflow.SearchKeepsInvariants | src/App.js:56-61 | a search keeps the in-memory list equal to the stored one, and keeps a list without repeats within capacity |
| Workflow.SearchAgainSameList | src/App.js:59-61 | repeating a fully successful search with the same replies reaches the same state |
| Workflow.LocateIsSearchByName | src/App.js:88-90 | once the position resolves to a non-empty name, the outcome is that of searching that name from the search box |
| Workflow.LocateKeepsInvariants | src/App.js:76-90 | a search by position keeps the list equal to the store, and keeps a list without repeats within capacity |
| Workflow.App.constructor | src/App.js:5-14 | the initial state is empty search text, no weather, no chart, and the recent list loaded from storage (empty when the key is absent) |
| Workflow.App.FetchWeather | src/App.js:16-68 | updates the fields step by step, with early returns, to exactly the state `Search` gives, and returns the requests issued; the list stays equal to the store |
| Workflow.App.EditCity | src/App.js:139 | typing sets the search-box text and changes nothing else |
| Workflow.App.SubmitCity | src/App.js:140-146 | Enter or the Search button runs the name search for the box's current text, reaching exactly the state `Search` gives for it |
| Workflow.App.LocateWeather | src/App.js:70-101 | updates the fields to exactly the state `Locate` gives, running the nested name search, and returns the requests issued |

## Left out

- Rendering, styling, the dark-mode toggle and the chart widget (lines 103-201) are presentation only. Of the handlers in that markup, typing into the search box (`onChange`, line 139) is `EditCity`, and Enter in the box (`onKeyDown`, lines 140-142) or the Search button (line 146) is `SubmitCity`. A recent-city button (line 170) calls `fetchWeather(c)` directly, which is `FetchWeather` with that name.
- `fetch`, URL building, the API key and the `units` query parameter are network I/O. Each request is represented only by its outcome. Because of that, the model does not capture that the forecast request (line 41) and the coordinate request (lines 78 and 81) send a literal placeholder string as their key.
- `JSON.parse`/`JSON.stringify` and `localStorage` are modelled as an optional stored list. Stored text that is not valid JSON makes the start-up load throw in the source. The model does not include that case.
- Workflow.Synced: the model treats the storage write at line 61 as one that cannot fail, and that is the only reason the in-memory list always equals the stored one. In the source, `localStorage.setItem` is inside the `try`. If it throws (quota exceeded, storage disabled), the `catch` at lines 62-67 runs after `setRecentCities(updated)`: weather and chart are cleared, the list is updated, the store is not. Other tabs writing the same key can also make the two differ. Neither case is modelled.
- `alert` and `console.error` are user-facing notifications with no effect on state.
- `navigator.geolocation` is represented only by its outcome (`Geo`).
- Concurrency is not modelled. Each handler runs as one atomic step. Overlapping searches, whose replies may settle in any order, are outside the model. So is the stale closure value of `recentCities` that a late-settling search would use.
- A kept entry (index a multiple of 8) whose `dt_txt` is missing or not a string, or whose `main` is missing, throws inside the map at lines 52-55, and the catch at lines 62-67 handles it; the other entries are never read. A `list` that is truthy but not an array throws at the filter. The model's entries always have both fields, so neither throw is modelled.
- Workflow.Locate: its contract does not spell out the non-empty-name case itself. That case is stated by `LocateIsSearchByName`, which reduces it to `Search`.
