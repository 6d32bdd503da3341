/** The age limit the lazy writer computes from the update times of all nodes it visited, root included. */
module Lru {
  import opened CacheEntry

  predicate Descending(s: seq<int>) {
    forall i, j :: 0 <= i < j < |s| ==> s[i] >= s[j]
  }

  /** sort.Slice may return any arrangement of the times in falling order. */
  predicate SortedFrom(sorted: seq<int>, times: seq<int>) {
    multiset(sorted) == multiset(times) && Descending(sorted)
  }

  function Threshold(sorted: seq<int>, lruSize: nat): int
    requires sorted != [] && lruSize >= 1
  {
    if |sorted| > lruSize then sorted[lruSize - 1] else sorted[|sorted| - 1]
  }

  /** How many nodes are at least as young as `time`. */
  function Younger(times: seq<int>, time: int): (n: nat)
    ensures n <= |times|
  {
    if times == [] then 0 else (if times[0] >= time then 1 else 0) + Younger(times[1..], time)
  }

  lemma {:induction false} YoungerConcat(a: seq<int>, b: seq<int>, time: int)
    ensures Younger(a + b, time) == Younger(a, time) + Younger(b, time)
  {
    if a == [] {
      assert a + b == b;
    } else {
      assert (a + b)[1..] == a[1..] + b;
      YoungerConcat(a[1..], b, time);
    }
  }

  function Without(s: seq<int>, i: nat): seq<int>
    requires i < |s|
  {
    s[..i] + s[i + 1..]
  }

  lemma WithoutParts(s: seq<int>, i: nat)
    requires i < |s|
    ensures multiset(Without(s, i)) == multiset(s) - multiset{s[i]}
  {
    assert s == s[..i] + ([s[i]] + s[i + 1..]);
  }

  lemma YoungerWithout(s: seq<int>, i: nat, time: int)
    requires i < |s|
    ensures Younger(s, time) == Younger(Without(s, i), time) + (if s[i] >= time then 1 else 0)
  {
    assert s == s[..i] + ([s[i]] + s[i + 1..]);
    assert ([s[i]] + s[i + 1..])[1..] == s[i + 1..];
    YoungerConcat(s[..i], [s[i]] + s[i + 1..], time);
    YoungerConcat(s[..i], s[i + 1..], time);
  }

  lemma {:induction false} YoungerPermutation(a: seq<int>, b: seq<int>, time: int)
    requires multiset(a) == multiset(b)
    ensures Younger(a, time) == Younger(b, time)
  {
    if a == [] {
      assert |b| == |multiset(b)| == 0;
    } else {
      assert a[0] in multiset(b);
      var i :| 0 <= i < |b| && b[i] == a[0];
      WithoutParts(a, 0);
      WithoutParts(b, i);
      assert Without(a, 0) == a[1..];
      YoungerPermutation(a[1..], Without(b, i), time);
      YoungerWithout(b, i, time);
    }
  }

  /** In falling order, the n-th time is at least `time` exactly when n nodes are. */
  lemma {:induction false} YoungerSorted(s: seq<int>, time: int, n: nat)
    requires Descending(s) && 1 <= n <= |s|
    ensures s[n - 1] >= time <==> Younger(s, time) >= n
  {
    if s[0] < time {
      NoneYounger(s, time);
    } else if n > 1 {
      YoungerSorted(s[1..], time, n - 1);
    }
  }

  lemma {:induction false} NoneYounger(s: seq<int>, time: int)
    requires forall i :: 0 <= i < |s| ==> s[i] < time
    ensures Younger(s, time) == 0
  {
    if s != [] {
      NoneYounger(s[1..], time);
    }
  }

  /** A node in use is marked for purging by its age exactly when the cache holds more than `lruSize` nodes and
      at least `lruSize` of them, itself included, are no older.  `times` holds the root's time, -1. */
  lemma AgedIffOldest(times: seq<int>, sorted: seq<int>, lruSize: nat, e: Entry)
    requires lruSize >= 1 && SortedFrom(sorted, times) && -1 in times && e.time in times && e.purge.InUse?
    ensures |sorted| == |times| > 0
    ensures e.Aged(Threshold(sorted, lruSize)) != e
      <==> e.time > 0 && |times| > lruSize && Younger(times, e.time) >= lruSize
  {
    assert |multiset(sorted)| == |sorted| && |multiset(times)| == |times|;
    YoungerPermutation(times, sorted, e.time);
    if |sorted| > lruSize {
      YoungerSorted(sorted, e.time, lruSize);
    } else {
      assert -1 in multiset(sorted);
      var i :| 0 <= i < |sorted| && sorted[i] == -1;
      assert sorted[|sorted| - 1] <= sorted[i];
    }
  }

  // ---------------------------------------------------------------- such an arrangement exists

  function Inserted(time: int, s: seq<int>): seq<int> {
    if s == [] || time >= s[0] then [time] + s else [s[0]] + Inserted(time, s[1..])
  }

  lemma {:induction false} InsertedParts(time: int, s: seq<int>)
    ensures multiset(Inserted(time, s)) == multiset(s) + multiset{time}
  {
    if s != [] && time < s[0] {
      InsertedParts(time, s[1..]);
      assert s == [s[0]] + s[1..];
    }
  }

  lemma {:induction false} InsertedDescending(time: int, s: seq<int>)
    requires Descending(s)
    ensures Descending(Inserted(time, s))
  {
    if s != [] && time < s[0] {
      InsertedDescending(time, s[1..]);
      InsertedBelow(time, s[1..], s[0]);
    }
  }

  lemma {:induction false} InsertedBelow(time: int, s: seq<int>, bound: int)
    requires time <= bound && forall i :: 0 <= i < |s| ==> s[i] <= bound
    ensures forall i :: 0 <= i < |Inserted(time, s)| ==> Inserted(time, s)[i] <= bound
  {
    if s != [] && time < s[0] {
      InsertedBelow(time, s[1..], bound);
    }
  }

  lemma {:induction false} CanBeSorted(times: seq<int>) returns (sorted: seq<int>)
    ensures SortedFrom(sorted, times)
  {
    if times == [] {
      sorted := [];
    } else {
      var rest := CanBeSorted(times[1..]);
      InsertedParts(times[0], rest);
      InsertedDescending(times[0], rest);
      sorted := Inserted(times[0], rest);
      assert times == [times[0]] + times[1..];
    }
  }
}
