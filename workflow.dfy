/**
 * The search workflow of the dashboard's App component: a search by city
 * name (fetchWeather) and a search by the device's position
 * (getLocationWeather), each changing the display state and the stored
 * recent-city list. Every request is one atomic step whose outcome is a
 * parameter; the network, the browser's geolocation and local storage are
 * not modelled beyond that.
 */
module Workflow {
  import opened Upstream
  import Forecast
  import Recent

  datatype Coords = Coords(latitude: Number, longitude: Number)

  /** What the browser's geolocation gives: no geolocation at all, the error
      callback (reported as a denied permission), or a position. */
  datatype Geo = Unsupported | PositionError | Located(coords: Coords)

  /** The requests the workflow issues, in order. */
  datatype Request =
    | CurrentByName(city: string)
    | ForecastByName(city: string)
    | CurrentByCoords(at: Coords)

  /** A snapshot of the App's state: the search box text, the displayed
      weather (null when absent), the chart points, the recent-city list in
      memory, and the value stored under the local-storage key (absent until
      first written). */
  datatype View = View(
    city: string,
    weather: Option<Current>,
    forecast: seq<Forecast.Point>,
    recentCities: seq<string>,
    stored: Option<seq<string>>)

  /** A state after one user action, with the requests it issued. */
  datatype Step = Step(view: View, issued: seq<Request>)

  /** The list read at start-up: the stored list, or empty when the key is absent. */
  function Load(stored: Option<seq<string>>): seq<string>
  {
    match stored
    case Some(l) => l
    case None => []
  }

  /** The in-memory recent list mirrors the stored one. */
  predicate Synced(v: View)
  {
    v.recentCities == Load(v.stored)
  }

  /** The display after a failure, `setWeather(null)` and `setForecast([])`
      (`src/App.js` lines 33-34 and 65-66): no weather and no chart. */
  function Cleared(v: View): View
  {
    v.(weather := None, forecast := [])
  }

  /** Both requests succeeded and the forecast reply has a list. */
  predicate FullSuccess(current: Fetched<Current>, reply: Fetched<ForecastReply>)
  {
    CurrentOk(current) && reply.Replied? && reply.body.ForecastList?
  }

  /** The effect of `fetchWeather(searchCity)` (`src/App.js` lines 16-68) on `v`. */
  function Search(v: View, searchCity: string, current: Fetched<Current>,
                  reply: Fetched<ForecastReply>): (s: Step)
    // An empty search string issues no request and changes nothing; any
    // other string, blank or not, is searched.
    ensures searchCity == "" ==> s == Step(v, [])
    ensures searchCity != "" ==> |s.issued| >= 1 && s.issued[0] == CurrentByName(searchCity)
    // The forecast is requested exactly when the current weather came back with status 200.
    ensures s.issued <= [CurrentByName(searchCity), ForecastByName(searchCity)]
    ensures ForecastByName(searchCity) in s.issued <==> searchCity != "" && CurrentOk(current)
    // A failed or throwing current-weather step clears the display and keeps the lists.
    ensures searchCity != "" && !CurrentOk(current) ==> s.view == Cleared(v)
    // A throwing forecast step clears the display too, including the new weather.
    ensures searchCity != "" && CurrentOk(current) && reply.Threw? ==> s.view == Cleared(v)
    // A forecast reply without a list keeps the new weather and clears the chart.
    ensures searchCity != "" && CurrentOk(current) && reply == Replied(ForecastMissing) ==>
              s.view == v.(weather := Some(current.body), forecast := [])
    // Only a full success changes the recent list and the store.
    ensures !(searchCity != "" && FullSuccess(current, reply)) ==>
              s.view.recentCities == v.recentCities && s.view.stored == v.stored
    ensures searchCity != "" && FullSuccess(current, reply) ==>
              s.view.weather == Some(current.body) &&
              s.view.forecast == Forecast.Sample(reply.body.list) &&
              s.view.recentCities == Recent.RecordUse(searchCity, v.recentCities) &&
              s.view.stored == Some(s.view.recentCities)
    ensures s.view.city == v.city
  {
    if searchCity == "" then Step(v, [])
    else if !CurrentOk(current) then Step(Cleared(v), [CurrentByName(searchCity)])
    else
      var issued := [CurrentByName(searchCity), ForecastByName(searchCity)];
      var shown := v.(weather := Some(current.body));
      match reply
      case Threw => Step(Cleared(v), issued)
      case Replied(ForecastMissing) => Step(shown.(forecast := []), issued)
      case Replied(ForecastList(list)) =>
        var updated := Recent.RecordUse(searchCity, v.recentCities);
        Step(shown.(forecast := Forecast.Sample(list), recentCities := updated, stored := Some(updated)), issued)
  }

  /** The effect of `getLocationWeather()` (`src/App.js` lines 70-101) on `v`:
      `byCoords` is the reply to the request by coordinates, `current` and
      `reply` those of the name search it then starts. */
  function Locate(v: View, geo: Geo, byCoords: Fetched<Current>, current: Fetched<Current>,
                  reply: Fetched<ForecastReply>): (s: Step)
    // No position, or no status-200 reply for it: nothing changes.
    ensures !geo.Located? ==> s == Step(v, [])
    ensures geo.Located? && !CurrentOk(byCoords) ==> s == Step(v, [CurrentByCoords(geo.coords)])
    // Otherwise the search box shows the resolved name and a search by that name follows.
    ensures geo.Located? && CurrentOk(byCoords) ==>
              |s.issued| >= 1 && s.issued[0] == CurrentByCoords(geo.coords) &&
              s.view.city == byCoords.body.name &&
              (byCoords.body.name == "" ==>
                 s.issued == [CurrentByCoords(geo.coords)] &&
                 s.view == v.(weather := Some(byCoords.body), city := ""))
  {
    if !geo.Located? || !CurrentOk(byCoords) then
      Step(v, if geo.Located? then [CurrentByCoords(geo.coords)] else [])
    else
      var data := byCoords.body;
      var shown := v.(weather := Some(data), city := data.name);
      var next := Search(shown, data.name, current, reply);
      Step(next.view, [CurrentByCoords(geo.coords)] + next.issued)
  }

  /** After a full success for `c` the list starts with `c`, holds it once,
      has at most 5 names, and the store holds the same list. */
  lemma SearchSuccessRecordsCity(v: View, c: string, current: Fetched<Current>,
                                 reply: Fetched<ForecastReply>)
    requires c != "" && FullSuccess(current, reply)
    ensures var r := Search(v, c, current, reply).view.recentCities;
            |r| <= Recent.Capacity && r[0] == c &&
            (forall i :: 0 <= i < |r| ==> (r[i] == c <==> i == 0)) &&
            Recent.IsSubsequence(r[1..], v.recentCities) &&
            Search(v, c, current, reply).view.stored == Some(r)
  {
    Recent.RecordUseKeepsOrder(c, v.recentCities);
  }

  /** A search keeps the store in step with the list, and a list without
      repeats within capacity stays so. */
  lemma {:induction false} SearchKeepsInvariants(v: View, c: string, current: Fetched<Current>,
                                                 reply: Fetched<ForecastReply>)
    ensures Synced(v) ==> Synced(Search(v, c, current, reply).view)
    ensures Recent.WellFormed(v.recentCities) ==>
              Recent.WellFormed(Search(v, c, current, reply).view.recentCities)
  {
    if Recent.WellFormed(v.recentCities) {
      Recent.RecordUseKeepsWellFormed(c, v.recentCities);
    }
  }

  /** Repeating a fully successful search leaves the recent list as it was after the first. */
  lemma SearchAgainSameList(v: View, c: string, current: Fetched<Current>,
                            reply: Fetched<ForecastReply>)
    requires c != "" && FullSuccess(current, reply)
    ensures var once := Search(v, c, current, reply).view;
            Search(once, c, current, reply).view == once
  {
    Recent.RecordUseIdempotent(c, v.recentCities);
  }

  /** Once the position resolves to a non-empty name, the outcome is that of a
      search for that name typed into the search box. */
  lemma LocateIsSearchByName(v: View, geo: Geo, byCoords: Fetched<Current>,
                             current: Fetched<Current>, reply: Fetched<ForecastReply>)
    requires geo.Located? && CurrentOk(byCoords) && byCoords.body.name != ""
    ensures var name := byCoords.body.name;
            Locate(v, geo, byCoords, current, reply) ==
              Step(Search(v.(city := name), name, current, reply).view,
                   [CurrentByCoords(geo.coords)] + Search(v.(city := name), name, current, reply).issued)
  {
  }

  lemma {:induction false} LocateKeepsInvariants(v: View, geo: Geo, byCoords: Fetched<Current>,
                                                 current: Fetched<Current>, reply: Fetched<ForecastReply>)
    ensures Synced(v) ==> Synced(Locate(v, geo, byCoords, current, reply).view)
    ensures Recent.WellFormed(v.recentCities) ==>
              Recent.WellFormed(Locate(v, geo, byCoords, current, reply).view.recentCities)
  {
    if geo.Located? && CurrentOk(byCoords) {
      var data := byCoords.body;
      SearchKeepsInvariants(v.(weather := Some(data), city := data.name), data.name, current, reply);
    }
  }

  /** The App component's state, updated in place by its event handlers. */
  class App {
    var city: string
    var weather: Option<Current>
    var forecast: seq<Forecast.Point>
    var recentCities: seq<string>
    var stored: Option<seq<string>>

    function State(): View
      reads this
    {
      View(city, weather, forecast, recentCities, stored)
    }

    ghost predicate Valid()
      reads this
    {
      Synced(State())
    }

    /** The initial state and the start-up load of the stored list (lines 5-14). */
    constructor (persisted: Option<seq<string>>)
      ensures Valid()
      ensures State() == View("", None, [], Load(persisted), persisted)
    {
      city := "";
      weather := None;
      forecast := [];
      recentCities := Load(persisted);
      stored := persisted;
    }

    /** `fetchWeather(searchCity)`; the returned requests are those it issued. */
    method FetchWeather(searchCity: string, current: Fetched<Current>,
                        reply: Fetched<ForecastReply>) returns (issued: seq<Request>)
      requires Valid()
      modifies this
      ensures Valid()
      ensures Step(State(), issued) == Search(old(State()), searchCity, current, reply)
    {
      if searchCity == "" {
        return [];
      }
      issued := [CurrentByName(searchCity)];
      if current.Threw? {
        weather := None;
        forecast := [];
        return;
      }
      var data := current.body;
      if !StatusOk(data.cod) {
        weather := None;
        forecast := [];
        return;
      }
      weather := Some(data);
      issued := issued + [ForecastByName(searchCity)];
      if reply.Threw? {
        weather := None;
        forecast := [];
        return;
      }
      var forecastData := reply.body;
      if forecastData.ForecastMissing? {
        forecast := [];
        return;
      }
      forecast := Forecast.Sample(forecastData.list);
      var updated := Recent.RecordUse(searchCity, recentCities);
      recentCities := updated;
      stored := Some(updated);
    }

    /** Typing into the search box (line 139): only the box's text changes. */
    method EditCity(text: string)
      requires Valid()
      modifies this
      ensures Valid()
      ensures State() == old(State()).(city := text)
    {
      city := text;
    }

    /** Pressing Enter in the search box or clicking Search (lines 140-146):
        a name search for the box's current text. */
    method SubmitCity(current: Fetched<Current>, reply: Fetched<ForecastReply>)
      returns (issued: seq<Request>)
      requires Valid()
      modifies this
      ensures Valid()
      ensures Step(State(), issued) == Search(old(State()), old(city), current, reply)
    {
      issued := FetchWeather(city, current, reply);
    }

    /** `getLocationWeather()`, with the nested name search run to completion. */
    method LocateWeather(geo: Geo, byCoords: Fetched<Current>, current: Fetched<Current>,
                         reply: Fetched<ForecastReply>) returns (issued: seq<Request>)
      requires Valid()
      modifies this
      ensures Valid()
      ensures Step(State(), issued) == Locate(old(State()), geo, byCoords, current, reply)
    {
      if !geo.Located? {
        return [];
      }
      issued := [CurrentByCoords(geo.coords)];
      if byCoords.Threw? {
        return;
      }
      var data := byCoords.body;
      if !StatusOk(data.cod) {
        return;
      }
      weather := Some(data);
      city := data.name;
      var more := FetchWeather(data.name, current, reply);
      issued := issued + more;
    }
  }
}
