/**
 * The recent-city list: the most-recently-used list of searched city names
 * that the dashboard keeps in memory and in local storage. City names are
 * compared by exact string equality.
 */
module Recent {

  /** At most this many cities are kept (`.slice(0, 5)`). */
  const Capacity: nat := 5

  predicate Distinct(s: seq<string>)
  {
    forall i, j :: 0 <= i < j < |s| ==> s[i] != s[j]
  }

  /** A list the dashboard itself could have written: no repeats, within capacity. */
  predicate WellFormed(s: seq<string>)
  {
    Distinct(s) && |s| <= Capacity
  }

  /** `a` occurs in `b` in the same relative order, possibly with gaps. */
  predicate IsSubsequence(a: seq<string>, b: seq<string>)
    decreases |b|
  {
    if a == [] then true
    else if b == [] then false
    else (a[0] == b[0] && IsSubsequence(a[1..], b[1..])) || IsSubsequence(a, b[1..])
  }

  /** `s.filter(x => x !== c)`: every occurrence of `c` removed, order kept. */
  function Without(s: seq<string>, c: string): (r: seq<string>)
    ensures forall x :: x in r <==> x in s && x != c
    ensures |r| <= |s|
  {
    if s == [] then []
    else (if s[0] == c then [] else [s[0]]) + Without(s[1..], c)
  }

  /** `s.slice(0, n)`: the first `n` elements, or all of `s` if it is shorter. */
  function Take(s: seq<string>, n: nat): (r: seq<string>)
    ensures |r| == if |s| < n then |s| else n
    ensures r == s[..|r|]
  {
    if |s| <= n then s else s[..n]
  }

  /** The update made after a successful search for `city`:
      `[city, ...recent.filter(c => c !== city)].slice(0, 5)`. */
  function RecordUse(city: string, recent: seq<string>): (r: seq<string>)
    ensures 1 <= |r| <= Capacity
    ensures |r| == if |Without(recent, city)| < Capacity then |Without(recent, city)| + 1 else Capacity
    ensures r[1..] == Without(recent, city)[..|r| - 1]
    ensures forall i :: 0 <= i < |r| ==> (r[i] == city <==> i == 0)
    ensures forall x :: x in r ==> x == city || x in recent
  {
    var w := Without(recent, city);
    var r := Take([city] + w, Capacity);
    assert forall i :: 1 <= i < |r| ==> r[i] == w[i - 1] && r[i] in w;
    r
  }

  /** Folding RecordUse over the searches in `cities`, oldest first. */
  function RecordAll(recent: seq<string>, cities: seq<string>): seq<string>
    decreases |cities|
  {
    if cities == [] then recent
    else RecordUse(cities[|cities| - 1], RecordAll(recent, cities[..|cities| - 1]))
  }

  lemma {:induction false} WithoutAbsent(s: seq<string>, c: string)
    requires c !in s
    ensures Without(s, c) == s
  {
    if s != [] {
      WithoutAbsent(s[1..], c);
      assert s == [s[0]] + s[1..];
    }
  }

  /** The filter keeps every other name as often as it occurs, and drops `c` entirely. */
  lemma {:induction false} WithoutMultiset(s: seq<string>, c: string)
    ensures multiset(Without(s, c)) == multiset(s)[c := 0]
  {
    if s != [] {
      WithoutMultiset(s[1..], c);
      assert s == [s[0]] + s[1..];
    }
  }

  lemma {:induction false} WithoutKeepsDistinct(s: seq<string>, c: string)
    requires Distinct(s)
    ensures Distinct(Without(s, c))
  {
    if s != [] {
      var t := s[1..];
      assert Distinct(t) by {
        forall i, j | 0 <= i < j < |t| ensures t[i] != t[j] {
          assert t[i] == s[i + 1] && t[j] == s[j + 1];
        }
      }
      WithoutKeepsDistinct(t, c);
      var w := Without(t, c);
      assert s[0] !in t by {
        forall j | 0 <= j < |t| ensures t[j] != s[0] {
          assert t[j] == s[j + 1];
        }
      }
      assert s[0] !in w;
      var r := Without(s, c);
      assert r == (if s[0] == c then [] else [s[0]]) + w;
      forall i, j | 0 <= i < j < |r| ensures r[i] != r[j] {
        if s[0] != c && i == 0 {
          assert r[j] == w[j - 1];
        } else if s[0] != c {
          assert r[i] == w[i - 1] && r[j] == w[j - 1];
        }
      }
    }
  }

  lemma {:induction false} WithoutIsSubsequence(s: seq<string>, c: string)
    ensures IsSubsequence(Without(s, c), s)
  {
    if s != [] {
      WithoutIsSubsequence(s[1..], c);
      var w := Without(s[1..], c);
      if s[0] != c {
        var r := [s[0]] + w;
        assert r[1..] == w;
        assert Without(s, c) == r;
      } else {
        assert Without(s, c) == w;
        if w != [] {
          assert IsSubsequence(w, s[1..]);
        }
      }
    }
  }

  lemma {:induction false} PrefixIsSubsequence(a: seq<string>, b: seq<string>, k: nat)
    requires k <= |a|
    requires IsSubsequence(a, b)
    ensures IsSubsequence(a[..k], b)
    decreases |b|
  {
    if k > 0 {
      assert a != [] && b != [];
      if a[0] == b[0] && IsSubsequence(a[1..], b[1..]) {
        PrefixIsSubsequence(a[1..], b[1..], k - 1);
        assert a[..k][1..] == a[1..][..k - 1];
      } else {
        PrefixIsSubsequence(a, b[1..], k);
      }
    }
  }

  /** Removing a name that does not occur among the first `k` leaves those `k` in place. */
  lemma {:induction false} WithoutKeepsPrefix(s: seq<string>, c: string, k: nat)
    requires k <= |s| && c !in s[..k]
    ensures |Without(s, c)| >= k && Without(s, c)[..k] == s[..k]
  {
    if k > 0 {
      assert s[0] == s[..k][0];
      assert s[1..][..k - 1] == s[1..k];
      assert c !in s[1..][..k - 1];
      WithoutKeepsPrefix(s[1..], c, k - 1);
      var r := Without(s, c);
      assert r == [s[0]] + Without(s[1..], c);
      assert r[..k] == [s[0]] + Without(s[1..], c)[..k - 1];
      assert s[..k] == [s[0]] + s[1..][..k - 1];
    }
  }

  /** Searching the same city twice in a row leaves the list as after the first search. */
  lemma {:induction false} RecordUseIdempotent(city: string, recent: seq<string>)
    ensures RecordUse(city, RecordUse(city, recent)) == RecordUse(city, recent)
  {
    var r := RecordUse(city, recent);
    assert city !in r[1..];
    WithoutAbsent(r[1..], city);
    assert r == [r[0]] + r[1..];
    assert Without(r, city) == Without(r[1..], city);
  }

  /** A list without repeats stays without repeats; the capacity never grows past 5. */
  lemma {:induction false} RecordUseKeepsWellFormed(city: string, recent: seq<string>)
    requires Distinct(recent)
    ensures WellFormed(RecordUse(city, recent))
  {
    var w := Without(recent, city);
    WithoutKeepsDistinct(recent, city);
    var r := RecordUse(city, recent);
    forall i, j | 0 <= i < j < |r| ensures r[i] != r[j] {
      if i > 0 {
        assert r[i] == w[i - 1] && r[j] == w[j - 1];
      }
    }
  }

  /** The cities after the searched one are the old list, `city` removed, in the same order. */
  lemma {:induction false} RecordUseKeepsOrder(city: string, recent: seq<string>)
    ensures IsSubsequence(RecordUse(city, recent)[1..], recent)
  {
    var r := RecordUse(city, recent);
    WithoutIsSubsequence(recent, city);
    PrefixIsSubsequence(Without(recent, city), recent, |r| - 1);
  }

  /** Recording `x` shifts the first `j` names back by one, when `x` is not among them. */
  lemma RecordUseShiftsPrefix(x: string, recent: seq<string>, j: nat)
    requires j < Capacity && j <= |recent| && x !in recent[..j]
    ensures var r := RecordUse(x, recent);
            |r| >= j + 1 && r[0] == x && r[1..j + 1] == recent[..j]
  {
    WithoutKeepsPrefix(recent, x, j);
  }

  /** The first `k` names of `r` are the last `k` of `cities`, most recent first. */
  predicate StartsWithLatest(r: seq<string>, cities: seq<string>, k: nat)
  {
    k <= |cities| && |r| >= k && forall i :: 0 <= i < k ==> r[i] == cities[|cities| - 1 - i]
  }

  /** One more search for a city not searched before extends the matching block by one. */
  lemma RecordUseExtendsLatest(before: seq<string>, prev: seq<string>, x: string, j: nat)
    requires j < Capacity && StartsWithLatest(before, prev, j) && x !in prev
    ensures StartsWithLatest(RecordUse(x, before), prev + [x], j + 1)
  {
    var cities := prev + [x];
    assert x !in before[..j] by {
      forall i | 0 <= i < j ensures before[..j][i] != x {
        assert before[i] == prev[|prev| - 1 - i];
      }
    }
    RecordUseShiftsPrefix(x, before, j);
    var r := RecordUse(x, before);
    forall i | 0 <= i < j + 1 ensures r[i] == cities[|cities| - 1 - i] {
      if i > 0 {
        assert r[i] == r[1..j + 1][i - 1] == before[i - 1];
      }
    }
  }

  /** After searches for distinct cities, the list starts with them, most recent first. */
  lemma {:induction false} RecordAllMostRecentFirst(recent: seq<string>, cities: seq<string>)
    requires Distinct(cities)
    ensures StartsWithLatest(RecordAll(recent, cities), cities,
                             if |cities| < Capacity then |cities| else Capacity)
  {
    if cities != [] {
      var n := |cities|;
      var x := cities[n - 1];
      var prev := cities[..n - 1];
      assert Distinct(prev);
      assert x !in prev;
      RecordAllMostRecentFirst(recent, prev);
      var j := if n - 1 < Capacity - 1 then n - 1 else Capacity - 1;
      RecordUseExtendsLatest(RecordAll(recent, prev), prev, x, j);
      assert prev + [x] == cities;
    }
  }

  /** Five or more distinct searches leave exactly the last five, most recent first. */
  lemma RecordAllCapacity(recent: seq<string>, cities: seq<string>)
    requires Distinct(cities) && |cities| >= Capacity
    ensures var r := RecordAll(recent, cities);
            |r| == Capacity && forall i :: 0 <= i < Capacity ==> r[i] == cities[|cities| - 1 - i]
  {
    RecordAllMostRecentFirst(recent, cities);
  }
}
