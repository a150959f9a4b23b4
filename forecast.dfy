/**
 * Forecast sampling: the 3-hourly forecast feed is thinned to one chart point
 * per day by keeping every entry whose index is a multiple of 8.
 */
module Forecast {
  import opened Upstream

  /** The feed has one entry every 3 hours, so 8 entries per day. */
  const EntriesPerDay: nat := 8

  /** One chart point: the calendar day and the temperature of the kept entry. */
  datatype Point = Point(date: string, temp: Number)

  /** `s.split(" ")[0]`: the text before the first space, or all of `s` when it
      has none (an empty string when `s` starts with a space). */
  function DatePart(s: string): (r: string)
    ensures |r| <= |s| && r == s[..|r|]
    ensures ' ' !in r
    ensures |r| < |s| ==> s[|r|] == ' '
  {
    if s == [] || s[0] == ' ' then [] else [s[0]] + DatePart(s[1..])
  }

  /** The chart point of one feed entry: the date part of its time stamp and its
      temperature, copied unchanged. */
  function ToPoint(e: Entry): Point
  {
    Point(DatePart(e.dtTxt), e.temp)
  }

  /** `filter((_, i) => i % 8 === 0)` applied to the first `n` entries of `list`. */
  function KeepEveryEighth(list: seq<Entry>, n: nat): seq<Entry>
    requires n <= |list|
  {
    if n == 0 then []
    else KeepEveryEighth(list, n - 1) + (if (n - 1) % EntriesPerDay == 0 then [list[n - 1]] else [])
  }

  /** Among the first `n` entries, ceil(n / 8) are kept, the k-th being entry 8k. */
  lemma {:induction false} KeepEveryEighthAt(list: seq<Entry>, n: nat)
    requires n <= |list|
    ensures |KeepEveryEighth(list, n)| == (n + 7) / 8
    ensures forall k :: 0 <= k < (n + 7) / 8 ==> 8 * k < n && KeepEveryEighth(list, n)[k] == list[8 * k]
  {
    if n > 0 {
      KeepEveryEighthAt(list, n - 1);
      var m := (n - 1) / 8;
      assert n - 1 == 8 * m + (n - 1) % 8;
      if (n - 1) % 8 == 0 {
        assert (n + 6) / 8 == m && (n + 7) / 8 == m + 1;
      } else {
        assert (n + 6) / 8 == m + 1 && (n + 7) / 8 == m + 1;
      }
    }
  }

  /** The chart data built from a forecast feed (`src/App.js` lines 50-55). */
  function Sample(list: seq<Entry>): (points: seq<Point>)
    ensures |points| == (|list| + EntriesPerDay - 1) / EntriesPerDay
    ensures forall k :: 0 <= k < |points| ==>
              EntriesPerDay * k < |list| &&
              points[k].date == DatePart(list[EntriesPerDay * k].dtTxt) &&
              points[k].temp == list[EntriesPerDay * k].temp
    ensures 1 <= |list| <= EntriesPerDay - 1 ==> |points| == 1
    ensures |points| <= |list| && (list != [] ==> points != [])
  {
    var kept := KeepEveryEighth(list, |list|);
    KeepEveryEighthAt(list, |list|);
    seq(|kept|, k requires 0 <= k < |kept| => ToPoint(kept[k]))
  }
}
