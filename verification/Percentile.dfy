/** The nearest-rank 95th percentile behind the latency gate
    (`_percentile_95`, src/seed_society/evaluation.py), in exact arithmetic. */
module Percentile {
  import opened Domain

  predicate Ascending(s: seq<real>) {
    forall i, j :: 0 <= i < j < |s| ==> s[i] <= s[j]
  }

  function CountAtMost(s: seq<real>, v: real): nat {
    if s == [] then 0 else (if s[0] <= v then 1 else 0) + CountAtMost(s[1..], v)
  }

  function CountBelow(s: seq<real>, v: real): nat {
    if s == [] then 0 else (if s[0] < v then 1 else 0) + CountBelow(s[1..], v)
  }

  /** What a 95th percentile is: a sample with at least 95% of the samples at or
      below it and fewer than 95% strictly below it. */
  predicate Is95th(samples: seq<real>, v: real) {
    v in samples && 100 * CountAtMost(samples, v) >= 95 * |samples| && 100 * CountBelow(samples, v) < 95 * |samples|
  }

  // ---------------------------------------------------------------- sorting

  function Insert(s: seq<real>, x: real): seq<real> {
    if s == [] || x < s[0] then [x] + s else [s[0]] + Insert(s[1..], x)
  }

  lemma FirstIsLeast(s: seq<real>, y: real)
    requires Ascending(s) && y in multiset(s)
    ensures s != [] && s[0] <= y
  {
    assert y in s;
  }

  lemma {:induction false} InsertAdds(s: seq<real>, x: real)
    ensures multiset(Insert(s, x)) == multiset(s) + multiset{x}
  {
    if s != [] && x >= s[0] {
      InsertAdds(s[1..], x);
      assert s == [s[0]] + s[1..];
    }
  }

  lemma AscendingCons(y: real, rest: seq<real>)
    requires Ascending(rest) && forall z :: z in multiset(rest) ==> y <= z
    ensures Ascending([y] + rest)
  {
    forall i | 0 <= i < |rest| ensures y <= rest[i] {
      assert rest[i] in multiset(rest);
    }
  }

  lemma {:induction false} InsertSorts(s: seq<real>, x: real)
    requires Ascending(s)
    ensures Ascending(Insert(s, x)) && multiset(Insert(s, x)) == multiset(s) + multiset{x}
  {
    InsertAdds(s, x);
    if s != [] && x >= s[0] {
      InsertSorts(s[1..], x);
      forall z | z in multiset(Insert(s[1..], x)) ensures s[0] <= z {
        if z != x {
          assert z in s[1..];
        }
      }
      AscendingCons(s[0], Insert(s[1..], x));
    }
  }

  lemma {:induction false} InsertCounts(s: seq<real>, x: real, v: real)
    ensures CountAtMost(Insert(s, x), v) == CountAtMost(s, v) + if x <= v then 1 else 0
    ensures CountBelow(Insert(s, x), v) == CountBelow(s, v) + if x < v then 1 else 0
  {
    if s == [] || x < s[0] {
      assert ([x] + s)[1..] == s;
    } else {
      InsertCounts(s[1..], x, v);
      assert ([s[0]] + Insert(s[1..], x))[1..] == Insert(s[1..], x);
    }
  }

  /** `sorted(values)`. */
  function Sorted(values: seq<real>): seq<real> {
    if values == [] then [] else Insert(Sorted(values[1..]), values[0])
  }

  lemma {:induction false} SortedSorts(values: seq<real>)
    ensures Ascending(Sorted(values)) && multiset(Sorted(values)) == multiset(values)
    ensures |Sorted(values)| == |values|
  {
    if values != [] {
      SortedSorts(values[1..]);
      InsertSorts(Sorted(values[1..]), values[0]);
      assert values == [values[0]] + values[1..];
    }
    assert |multiset(Sorted(values))| == |multiset(values)|;
  }

  lemma {:induction false} SortedCounts(values: seq<real>, v: real)
    ensures CountAtMost(Sorted(values), v) == CountAtMost(values, v)
    ensures CountBelow(Sorted(values), v) == CountBelow(values, v)
  {
    if values != [] {
      SortedCounts(values[1..], v);
      InsertCounts(Sorted(values[1..]), values[0], v);
    }
  }

  lemma {:induction false} SortedIsUnique(a: seq<real>, b: seq<real>)
    requires Ascending(a) && Ascending(b) && multiset(a) == multiset(b)
    ensures a == b
    decreases |a|
  {
    assert |a| == |multiset(a)| && |b| == |multiset(b)|;
    if a != [] {
      SameHead(a, b);
      var x := a[0];
      assert a == [x] + a[1..] && b == [x] + b[1..];
      assert multiset(a[1..]) == multiset(a) - multiset{x};
      assert multiset(b[1..]) == multiset(b) - multiset{x};
      SortedIsUnique(a[1..], b[1..]);
    }
  }

  lemma SameHead(a: seq<real>, b: seq<real>)
    requires Ascending(a) && Ascending(b) && multiset(a) == multiset(b) && a != []
    ensures b != [] && a[0] == b[0]
  {
    assert a[0] in multiset(a);
    FirstIsLeast(b, a[0]);
    assert b[0] in multiset(b);
    FirstIsLeast(a, b[0]);
  }

  // ---------------------------------------------------------------- the rank

  lemma {:induction false} AtMostCoversPrefix(s: seq<real>, v: real, n: nat)
    requires n <= |s| && forall i :: 0 <= i < n ==> s[i] <= v
    ensures CountAtMost(s, v) >= n
  {
    if n > 0 {
      AtMostCoversPrefix(s[1..], v, n - 1);
    }
  }

  lemma {:induction false} BelowStaysInPrefix(s: seq<real>, v: real, n: nat)
    requires n <= |s| && forall i :: n <= i < |s| ==> s[i] >= v
    ensures CountBelow(s, v) <= n
  {
    if s != [] {
      BelowStaysInPrefix(s[1..], v, if n == 0 then 0 else n - 1);
    }
  }

  /** max(0, ceil(0.95 n) - 1). */
  function Rank95(n: nat): (k: int)
    ensures n > 0 ==> 0 <= k < n && 100 * k < 95 * n <= 100 * (k + 1)
  {
    var ceiling := (95 * n + 99) / 100;
    if ceiling - 1 > 0 then ceiling - 1 else 0
  }

  /** `_percentile_95`; Python's IndexError on no samples is None. */
  function Percentile95(values: seq<real>): Option<real> {
    var ordered := Sorted(values);
    var k := Rank95(|ordered|);
    if 0 <= k < |ordered| then Some(ordered[k]) else None
  }

  /** In sorted samples the ranked one has 95% at or below it, not before it. */
  lemma RankCovers(ordered: seq<real>)
    requires Ascending(ordered) && ordered != []
    ensures 0 <= Rank95(|ordered|) < |ordered|
    ensures
      var v := ordered[Rank95(|ordered|)];
      100 * CountAtMost(ordered, v) >= 95 * |ordered| && 100 * CountBelow(ordered, v) < 95 * |ordered|
  {
    var k := Rank95(|ordered|);
    AtMostCoversPrefix(ordered, ordered[k], k + 1);
    BelowStaysInPrefix(ordered, ordered[k], k);
  }

  /** In range exactly on non-empty input, and then the 95th percentile. */
  lemma PercentileIsThe95th(values: seq<real>)
    ensures Percentile95(values).Some? <==> values != []
    ensures values != [] ==> Is95th(values, Percentile95(values).value)
  {
    SortedSorts(values);
    if values != [] {
      var v := Sorted(values)[Rank95(|values|)];
      RankCovers(Sorted(values));
      SortedCounts(values, v);
      SortedHolds(values, v);
    }
  }

  lemma SortedHolds(values: seq<real>, v: real)
    requires v in Sorted(values)
    ensures v in values
  {
    SortedSorts(values);
    assert v in multiset(Sorted(values));
  }

  /** No other value qualifies. */
  lemma The95thIsUnique(values: seq<real>, v: real, w: real)
    requires Is95th(values, v) && Is95th(values, w)
    ensures v == w
  {
    if v < w {
      AtMostIsBelow(values, v, w);
    } else if w < v {
      AtMostIsBelow(values, w, v);
    }
  }

  lemma {:induction false} AtMostIsBelow(s: seq<real>, v: real, w: real)
    requires v < w
    ensures CountAtMost(s, v) <= CountBelow(s, w)
  {
    if s != [] {
      AtMostIsBelow(s[1..], v, w);
    }
  }

  /** The order of the samples does not matter. */
  lemma PercentileIgnoresOrder(values: seq<real>, others: seq<real>)
    requires multiset(values) == multiset(others)
    ensures Percentile95(values) == Percentile95(others)
  {
    SortedSorts(values);
    SortedSorts(others);
    SortedIsUnique(Sorted(values), Sorted(others));
  }
}
