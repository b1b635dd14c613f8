/** p50/p95/p99 as health._percentiles computes them: sort, then interpolate with the
    'inclusive' method of Python's statistics.quantiles(n=100). */
module Percentiles {

  ghost predicate Sorted(s: seq<real>) {
    forall i, j :: 0 <= i < j < |s| ==> s[i] <= s[j]
  }

  ghost predicate AtMost(s: seq<real>, bound: real) {
    forall i :: 0 <= i < |s| ==> s[i] <= bound
  }

  lemma AtMostPermuted(a: seq<real>, b: seq<real>, bound: real)
    requires multiset(a) == multiset(b) && AtMost(a, bound)
    ensures AtMost(b, bound)
  {
    forall i | 0 <= i < |b| ensures b[i] <= bound {
      assert b[i] in multiset(a);
    }
  }

  lemma InsertBelow(init: seq<real>, last: real, x: real, r: seq<real>)
    requires AtMost(init, last) && x <= last && Sorted(r) && multiset(r) == multiset(init + [x])
    ensures Sorted(r + [last]) && multiset(r + [last]) == multiset(init + [last] + [x])
  {
    AtMostPermuted(init + [x], r, last);
  }

  /** Puts x at its place in a sorted sequence. */
  function Insert(s: seq<real>, x: real): (r: seq<real>)
    requires Sorted(s)
    ensures Sorted(r) && multiset(r) == multiset(s + [x])
  {
    if s == [] then [x]
    else if s[|s| - 1] <= x then s + [x]
    else
      var init, last := s[..|s| - 1], s[|s| - 1];
      var r := Insert(init, x);
      assert s == init + [last];
      InsertBelow(init, last, x, r);
      r + [last]
  }

  function Sort(s: seq<real>): (r: seq<real>)
    ensures Sorted(r) && multiset(r) == multiset(s) && |r| == |s|
  {
    if s == [] then []
    else
      var init, last := s[..|s| - 1], s[|s| - 1];
      assert s == init + [last];
      var r := Insert(Sort(init), last);
      assert |r| == |multiset(r)| && |s| == |multiset(s)|;
      r
  }

  lemma DropLast(s: seq<real>)
    requires s != []
    ensures multiset(s[..|s| - 1]) == multiset(s) - multiset{s[|s| - 1]}
  {
    assert s == s[..|s| - 1] + [s[|s| - 1]];
  }

  lemma SameLast(a: seq<real>, b: seq<real>)
    requires Sorted(a) && Sorted(b) && multiset(a) == multiset(b) && |a| == |b| > 0
    ensures a[|a| - 1] == b[|b| - 1]
  {
    AtMostPermuted(a, b, a[|a| - 1]);
    AtMostPermuted(b, a, b[|b| - 1]);
  }

  lemma DropBoth(a: seq<real>, b: seq<real>)
    requires Sorted(a) && Sorted(b) && multiset(a) == multiset(b) && |a| == |b| > 0
    ensures multiset(a[..|a| - 1]) == multiset(b[..|b| - 1])
  {
    SameLast(a, b);
    DropLast(a);
    DropLast(b);
  }

  lemma {:induction false} SameFirst(a: seq<real>, b: seq<real>, n: nat)
    requires |a| == |b| && n <= |a| && Sorted(a[..n]) && Sorted(b[..n]) && multiset(a[..n]) == multiset(b[..n])
    ensures forall i :: 0 <= i < n ==> a[i] == b[i]
  {
    if n > 0 {
      SameLast(a[..n], b[..n]);
      DropBoth(a[..n], b[..n]);
      assert a[..n][..n - 1] == a[..n - 1] && b[..n][..n - 1] == b[..n - 1];
      SameFirst(a, b, n - 1);
    }
  }

  /** Two sorted sequences of the same values are the same sequence. */
  lemma SortedUnique(a: seq<real>, b: seq<real>)
    requires Sorted(a) && Sorted(b) && multiset(a) == multiset(b)
    ensures a == b
  {
    assert |a| == |multiset(a)| && |b| == |multiset(b)|;
    assert a[..|a|] == a && b[..|a|] == b;
    SameFirst(a, b, |a|);
  }

  /** Where cut point i of 99 falls in n sorted data points: divmod(i * (n - 1), 100). */
  function Rank(n: nat, i: nat): nat
    requires n >= 2
  {
    i * (n - 1) / 100
  }

  function Offset(n: nat, i: nat): (r: nat)
    requires n >= 2
    ensures r < 100
  {
    i * (n - 1) % 100
  }

  lemma RankBounds(n: nat, i: nat, k: nat)
    requires n >= 2 && i <= k < 100
    ensures Rank(n, i) <= Rank(n, k) < n - 1
    ensures Rank(n, i) == Rank(n, k) ==> Offset(n, i) <= Offset(n, k)
  {
    var m := n - 1;
    assert i * m <= k * m < 100 * m;
  }

  /** Linear interpolation between two neighbours. */
  function Blend(lo: real, hi: real, offset: nat): real {
    (lo * (100.0 - offset as real) + hi * offset as real) / 100.0
  }

  lemma BlendMonotone(lo: real, hi: real, a: nat, b: nat)
    requires lo <= hi && a <= b <= 100
    ensures lo <= Blend(lo, hi, a) <= Blend(lo, hi, b) <= hi
    ensures Blend(lo, hi, 0) == lo
  {
    var x, p, q := hi - lo, a as real, b as real;
    assert Blend(lo, hi, a) == lo + x * p / 100.0;
    assert Blend(lo, hi, b) == lo + x * q / 100.0;
    assert 0.0 <= x * p <= x * q <= x * 100.0;
  }

  /** The i-th of the 99 cut points of sorted data. */
  function Cut(d: seq<real>, i: nat): real
    requires |d| >= 2 && i < 100
  {
    RankBounds(|d|, i, i);
    var j := Rank(|d|, i);
    Blend(d[j], d[j + 1], Offset(|d|, i))
  }

  datatype Cuts = Cuts(p50: real, p95: real, p99: real)

  function PercentilesOf(latencies: seq<real>): Cuts {
    if latencies == [] then Cuts(0.0, 0.0, 0.0)
    else if |latencies| == 1 then Cuts(latencies[0], latencies[0], latencies[0])
    else
      var d := Sort(latencies);
      Cuts(Cut(d, 50), Cut(d, 95), Cut(d, 99))
  }

  lemma CutBetween(d: seq<real>, i: nat)
    requires |d| >= 2 && i < 100 && Sorted(d)
    ensures Rank(|d|, i) < |d| - 1
    ensures d[Rank(|d|, i)] <= Cut(d, i) <= d[Rank(|d|, i) + 1]
    ensures Offset(|d|, i) == 0 ==> Cut(d, i) == d[Rank(|d|, i)]
  {
    RankBounds(|d|, i, i);
    var j := Rank(|d|, i);
    assert d[j] <= d[j + 1];
    BlendMonotone(d[j], d[j + 1], Offset(|d|, i), Offset(|d|, i));
  }

  lemma CutMonotone(d: seq<real>, i: nat, k: nat)
    requires |d| >= 2 && i <= k < 100 && Sorted(d)
    ensures Cut(d, i) <= Cut(d, k)
  {
    RankBounds(|d|, i, k);
    CutBetween(d, i);
    CutBetween(d, k);
    var j := Rank(|d|, i);
    if j == Rank(|d|, k) {
      BlendMonotone(d[j], d[j + 1], Offset(|d|, i), Offset(|d|, k));
    } else {
      assert d[j + 1] <= d[Rank(|d|, k)];
    }
  }

  /** p50 <= p95 <= p99, all between two of the latencies themselves. */
  lemma PercentilesOrdered(latencies: seq<real>)
    requires latencies != []
    ensures var c := PercentilesOf(latencies);
            && c.p50 <= c.p95 <= c.p99
            && (exists x :: x in latencies && x <= c.p50)
            && (exists x :: x in latencies && c.p99 <= x)
  {
    var c := PercentilesOf(latencies);
    if |latencies| == 1 {
      assert latencies[0] in latencies;
    } else {
      var d := Sort(latencies);
      CutMonotone(d, 50, 95);
      CutMonotone(d, 95, 99);
      CutBetween(d, 50);
      CutBetween(d, 99);
      var lo := d[Rank(|d|, 50)];
      var hi := d[Rank(|d|, 99) + 1];
      assert lo in multiset(d) && hi in multiset(d);
      assert lo in latencies && hi in latencies;
    }
  }

  /** q is the i-th percentile of sorted data by the inclusive method: the data points stand at
      equal steps from 0 to 100 percent, and q lies on the line between the two around i. */
  ghost predicate IsPercentile(d: seq<real>, i: nat, q: real)
    requires |d| >= 2
  {
    var j, r := i * (|d| - 1) / 100, i * (|d| - 1) % 100;
    j + 1 < |d| && 100.0 * (q - d[j]) == r as real * (d[j + 1] - d[j])
  }

  lemma CutInterpolates(d: seq<real>, i: nat)
    requires |d| >= 2 && i < 100
    ensures IsPercentile(d, i, Cut(d, i))
  {
    RankBounds(|d|, i, i);
    var lo, hi, r := d[Rank(|d|, i)], d[Rank(|d|, i) + 1], Offset(|d|, i) as real;
    assert 100.0 * Cut(d, i) == lo * (100.0 - r) + hi * r;
    assert lo * (100.0 - r) == 100.0 * lo - lo * r;
  }

  /** What the percentiles are: of two or more latencies in whatever order, the inclusive
      percentiles 50, 95 and 99 of the sorted data; of one latency that latency, of none 0. */
  lemma PercentilesInterpolate(latencies: seq<real>, d: seq<real>)
    requires Sorted(d) && multiset(d) == multiset(latencies)
    ensures var c := PercentilesOf(latencies);
            if |d| >= 2 then IsPercentile(d, 50, c.p50) && IsPercentile(d, 95, c.p95) && IsPercentile(d, 99, c.p99)
            else if |d| == 1 then c.p50 == c.p95 == c.p99 == d[0]
            else c.p50 == c.p95 == c.p99 == 0.0
  {
    assert |d| == |multiset(d)| == |multiset(latencies)| == |latencies|;
    SortedUnique(d, Sort(latencies));
    if |d| >= 2 {
      CutInterpolates(d, 50);
      CutInterpolates(d, 95);
      CutInterpolates(d, 99);
    } else if |d| == 1 {
      assert d[0] in multiset(latencies);
    }
  }

  /** The percentiles depend on the latencies only as a multiset. */
  lemma PercentilesIgnoreOrder(a: seq<real>, b: seq<real>)
    requires multiset(a) == multiset(b)
    ensures PercentilesOf(a) == PercentilesOf(b)
  {
    assert |a| == |multiset(a)| == |multiset(b)| == |b|;
    SortedUnique(Sort(a), Sort(b));
    if |a| == 1 {
      assert a[0] in multiset(b);
    }
  }

  function CountAbove(s: seq<real>, budget: real): nat {
    if s == [] then 0
    else CountAbove(s[..|s| - 1], budget) + if s[|s| - 1] > budget then 1 else 0
  }

  lemma {:induction false} CountAboveNone(s: seq<real>, budget: real)
    requires forall i :: 0 <= i < |s| ==> s[i] <= budget
    ensures CountAbove(s, budget) == 0
  {
    if s != [] { CountAboveNone(s[..|s| - 1], budget); }
  }

  lemma {:induction false} CountAboveInsert(s: seq<real>, x: real, budget: real)
    requires Sorted(s)
    ensures CountAbove(Insert(s, x), budget) == CountAbove(s, budget) + if x > budget then 1 else 0
  {
    if s == [] {
      assert [x][..0] == [];
    } else if s[|s| - 1] <= x {
      assert (s + [x])[..|s|] == s;
    } else {
      var init := s[..|s| - 1];
      CountAboveInsert(init, x, budget);
      var r := Insert(init, x);
      assert (r + [s[|s| - 1]])[..|r|] == r;
    }
  }

  lemma {:induction false} CountAboveSort(s: seq<real>, budget: real)
    ensures CountAbove(Sort(s), budget) == CountAbove(s, budget)
  {
    if s != [] {
      CountAboveSort(s[..|s| - 1], budget);
      CountAboveInsert(Sort(s[..|s| - 1]), s[|s| - 1], budget);
    }
  }

  /** In sorted data, position k is over the budget iff everything from k on is. */
  lemma {:induction false} RankAbove(d: seq<real>, k: nat, budget: real)
    requires Sorted(d) && k < |d|
    ensures d[k] > budget <==> CountAbove(d, budget) >= |d| - k
  {
    var n := |d| - 1;
    if d[n] <= budget {
      CountAboveNone(d, budget);
    } else if k < n {
      RankAbove(d[..n], k, budget);
    }
  }

  lemma RankOfP95(n: nat)
    requires n >= 2
    ensures 20 * (n - 1 - Rank(n, 95)) >= n - 1
    ensures (n - 1) % 20 == 0 ==> Offset(n, 95) == 0
  {}

  lemma P95OfSorted(d: seq<real>, budget: real)
    requires |d| >= 2 && Sorted(d)
    ensures var over, j := CountAbove(d, budget), Rank(|d|, 95);
            && j < |d| - 1
            && (Cut(d, 95) > budget ==> over >= |d| - 1 - j)
            && (over >= |d| - j ==> Cut(d, 95) > budget)
            && (Offset(|d|, 95) == 0 ==> (Cut(d, 95) > budget <==> over >= |d| - j))
  {
    CutBetween(d, 95);
    var j := Rank(|d|, 95);
    RankAbove(d, j, budget);
    RankAbove(d, j + 1, budget);
  }

  /** What "p95 over budget" says about how many of the n latencies exceeded the budget:
      it takes at least max(1, ceil((n-1)/20)) of them, n - floor(95(n-1)/100) of them always
      suffice, and the two meet when (n-1) is a multiple of 20. */
  lemma P95Evidence(latencies: seq<real>, budget: real)
    requires latencies != []
    ensures var n := |latencies|;
            var over := CountAbove(latencies, budget);
            var enough := n - 95 * (n - 1) / 100;
            && (PercentilesOf(latencies).p95 > budget ==> over >= 1 && 20 * over >= n - 1)
            && (over >= enough ==> PercentilesOf(latencies).p95 > budget)
            && ((n - 1) % 20 == 0 ==> (PercentilesOf(latencies).p95 > budget <==> over >= enough))
  {
    if |latencies| == 1 {
      assert latencies[..0] == [];
    } else {
      CountAboveSort(latencies, budget);
      P95OfSorted(Sort(latencies), budget);
      RankOfP95(|latencies|);
    }
  }

  /** Latencies all within a budget keep p95 within it. */
  lemma P95Within(latencies: seq<real>, budget: real)
    requires latencies != [] && forall i :: 0 <= i < |latencies| ==> latencies[i] <= budget
    ensures PercentilesOf(latencies).p95 <= budget
  {
    P95Evidence(latencies, budget);
    CountAboveNone(latencies, budget);
  }
}
