/** The two-sample Kolmogorov-Smirnov statistic: a two-pointer merge over two sorted samples
    that stops as soon as one of them is exhausted. Samples are finite reals; the empty
    sample is answered with 1. */
module KsStatistic {
  // ---- Reference definition: empirical distribution functions and their distance ----

  /** How many elements of `s` are at most `x`. */
  ghost function CountUpTo(s: seq<real>, x: real): nat {
    if s == [] then 0 else (if s[0] <= x then 1 else 0) + CountUpTo(s[1..], x)
  }

  /** The empirical distribution function of a sample. */
  ghost function Cdf(s: seq<real>, x: real): real
    requires s != []
  {
    CountUpTo(s, x) as real / |s| as real
  }

  function Abs(r: real): real {
    if r < 0.0 then -r else r
  }

  ghost function Gap(a: seq<real>, b: seq<real>, x: real): real
    requires a != [] && b != []
  {
    Abs(Cdf(a, x) - Cdf(b, x))
  }

  /** `d` is the supremum over every real `x` of the gap, and some `x` attains it. */
  ghost predicate IsDistance(a: seq<real>, b: seq<real>, d: real)
    requires a != [] && b != []
  {
    && (exists x :: Gap(a, b, x) == d)
    && (forall x :: Gap(a, b, x) <= d)
  }

  // ---- Sorting (the library's stable sort; only sortedness and contents matter here) ----

  predicate Sorted(s: seq<real>) {
    forall i, j :: 0 <= i < j < |s| ==> s[i] <= s[j]
  }

  function Insert(x: real, s: seq<real>): (r: seq<real>)
    requires Sorted(s)
    ensures Sorted(r) && |r| == |s| + 1
    ensures forall y :: y in r <==> y == x || y in s
  {
    if s == [] || x <= s[0] then [x] + s
    else
      var t := Insert(x, s[1..]);
      assert forall j :: 0 <= j < |t| ==> t[j] in t;
      assert s == [s[0]] + s[1..];
      [s[0]] + t
  }

  function Sort(s: seq<real>): (r: seq<real>)
    ensures Sorted(r) && |r| == |s|
  {
    if s == [] then [] else Insert(s[0], Sort(s[1..]))
  }

  lemma {:induction false} InsertCount(v: real, s: seq<real>, x: real)
    requires Sorted(s)
    ensures CountUpTo(Insert(v, s), x) == CountUpTo([v] + s, x)
  {
    if s == [] || v <= s[0] {
    } else {
      InsertCount(v, s[1..], x);
      assert ([v] + s)[1..] == s && ([v] + s[1..])[1..] == s[1..];
      assert Insert(v, s)[1..] == Insert(v, s[1..]);
    }
  }

  lemma {:induction false} SortCount(s: seq<real>, x: real)
    ensures CountUpTo(Sort(s), x) == CountUpTo(s, x)
  {
    if s != [] {
      InsertCount(s[0], Sort(s[1..]), x);
      assert ([s[0]] + Sort(s[1..]))[1..] == Sort(s[1..]);
      SortCount(s[1..], x);
    }
  }

  // ---- Counting in a sorted sample ----

  /** In a sorted sample the elements up to `x` are a prefix. */
  lemma {:induction false} CountIsPrefix(s: seq<real>, x: real, k: nat)
    requires Sorted(s) && k <= |s|
    requires forall i :: 0 <= i < k ==> s[i] <= x
    requires forall i :: k <= i < |s| ==> x < s[i]
    ensures CountUpTo(s, x) == k
  {
    if s != [] {
      CountIsPrefix(s[1..], x, if k == 0 then 0 else k - 1);
    }
  }

  lemma {:induction false} CountMonotone(s: seq<real>, x: real, y: real)
    requires x <= y
    ensures CountUpTo(s, x) <= CountUpTo(s, y) <= |s|
  {
    if s != [] {
      CountMonotone(s[1..], x, y);
    }
  }

  lemma DivMonotone(p: nat, q: nat, n: nat)
    requires p <= q && n > 0
    ensures p as real / n as real <= q as real / n as real
  {
  }

  // ---- The merge ----

  /** `last` separates the elements already passed from those still ahead. */
  ghost predicate Split(s: seq<real>, k: nat, last: real) {
    && k <= |s|
    && (forall m :: 0 <= m < k ==> s[m] <= last)
    && (forall m :: k <= m < |s| ==> last < s[m])
  }

  ghost predicate CoveredUpTo(a: seq<real>, b: seq<real>, last: real, d: real)
    requires a != [] && b != []
  {
    forall x :: x <= last ==> Gap(a, b, x) <= d
  }

  /** Between two passed points the gap is the one at the lower point. */
  lemma CoverNext(a: seq<real>, b: seq<real>, i: nat, j: nat, last: real, x: real, d: real)
    requires Sorted(a) && Sorted(b) && a != [] && b != []
    requires Split(a, i, last) && Split(b, j, last) && last <= x
    requires forall m :: i <= m < |a| ==> x <= a[m]
    requires forall m :: j <= m < |b| ==> x <= b[m]
    requires CoveredUpTo(a, b, last, d)
    ensures forall y :: y < x ==> Gap(a, b, y) <= d
  {
    forall y | y < x
      ensures Gap(a, b, y) <= d
    {
      if y > last {
        CountIsPrefix(a, y, i);
        CountIsPrefix(b, y, j);
        CountIsPrefix(a, last, i);
        CountIsPrefix(b, last, j);
        assert Gap(a, b, y) == Gap(a, b, last);
      }
    }
  }

  lemma CdfMonotone(s: seq<real>, x: real, y: real)
    requires s != [] && x <= y
    ensures Cdf(s, x) <= Cdf(s, y)
  {
    CountMonotone(s, x, y);
    DivMonotone(CountUpTo(s, x), CountUpTo(s, y), |s|);
  }

  lemma Fraction(p: nat, n: nat)
    requires p <= n && n > 0
    ensures 0.0 <= p as real / n as real <= 1.0
    ensures p as real / n as real == 0.0 <==> p == 0
    ensures p as real / n as real == 1.0 <==> p == n
  {
    var r := p as real / n as real;
    assert r * n as real == p as real;
  }

  lemma CdfRange(s: seq<real>, x: real)
    requires s != []
    ensures 0.0 <= Cdf(s, x) <= 1.0
    ensures Cdf(s, x) == 0.0 <==> CountUpTo(s, x) == 0
    ensures Cdf(s, x) == 1.0 <==> CountUpTo(s, x) == |s|
  {
    CountMonotone(s, x, x);
    Fraction(CountUpTo(s, x), |s|);
  }

  /** If one function is already 1, the gap only shrinks as the other climbs. */
  lemma Climb(f: real, low: real, high: real, d: real)
    requires f == 1.0 && low <= high <= 1.0 && Abs(f - low) <= d
    ensures Abs(f - high) <= d
  {
  }

  lemma GapSymmetric(a: seq<real>, b: seq<real>, x: real)
    requires a != [] && b != []
    ensures Gap(a, b, x) == Gap(b, a, x)
  {
  }

  /** Once one sample is exhausted nothing beyond the last passed point can exceed `d`. */
  lemma StopLosesNothing(a: seq<real>, b: seq<real>, last: real, x: real, d: real)
    requires a != [] && b != [] && last <= x
    requires CountUpTo(a, last) == |a|
    requires Gap(a, b, last) <= d
    ensures Gap(a, b, x) <= d && Gap(b, a, x) <= d
  {
    CountMonotone(a, last, x);
    CdfRange(a, x);
    CdfRange(a, last);
    CdfMonotone(b, last, x);
    CdfRange(b, x);
    Climb(Cdf(a, x), Cdf(b, last), Cdf(b, x), d);
    GapSymmetric(a, b, x);
  }

  /** Passing every element up to `x` gives the gap at `x` and covers everything below it. */
  lemma Passed(a: seq<real>, b: seq<real>, i0: nat, j0: nat, last: real, i: nat, j: nat, x: real, d: real)
    requires Sorted(a) && Sorted(b) && a != [] && b != []
    requires Split(a, i0, last) && Split(b, j0, last) && last < x
    requires forall m :: i0 <= m < |a| ==> x <= a[m]
    requires forall m :: j0 <= m < |b| ==> x <= b[m]
    requires CoveredUpTo(a, b, last, d)
    requires Split(a, i, x) && Split(b, j, x)
    ensures Gap(a, b, x) == Abs(i as real / |a| as real - j as real / |b| as real)
    ensures forall e :: e >= d && e >= Gap(a, b, x) ==> CoveredUpTo(a, b, x, e)
  {
    CoverNext(a, b, i0, j0, last, x, d);
    CountIsPrefix(a, x, i);
    CountIsPrefix(b, x, j);
  }

  /** At exhaustion the recorded maximum is the distance. */
  lemma Exhausted(a: seq<real>, b: seq<real>, i: nat, j: nat, last: real, d: real)
    requires Sorted(a) && Sorted(b) && a != [] && b != []
    requires Split(a, i, last) && Split(b, j, last) && (i == |a| || j == |b|)
    requires CoveredUpTo(a, b, last, d)
    ensures forall x :: Gap(a, b, x) <= d
  {
    forall x
      ensures Gap(a, b, x) <= d
    {
      if x > last {
        CountIsPrefix(a, last, i);
        CountIsPrefix(b, last, j);
        GapSymmetric(a, b, last);
        assert Gap(a, b, last) <= d;
        if i == |a| {
          StopLosesNothing(a, b, last, x, d);
        } else {
          StopLosesNothing(b, a, last, x, d);
        }
      }
    }
  }

  /** Either inner loop of the merge: move the pointer past every element up to `x`. */
  method PassUpTo(s: seq<real>, from: nat, ghost last: real, x: real) returns (k: nat)
    requires Sorted(s) && Split(s, from, last) && last <= x
    ensures from <= k && Split(s, k, x)
    ensures k > from <==> from < |s| && s[from] <= x
  {
    k := from;
    while k < |s| && s[k] <= x
      invariant from <= k <= |s|
      invariant forall m :: 0 <= m < k ==> s[m] <= x
    {
      k := k + 1;
    }
  }

  function Lower(x: real, y: real): real {
    if y < x then y else x
  }

  lemma Below(a: seq<real>, b: seq<real>, last: real)
    requires Sorted(a) && Sorted(b) && a != [] && b != []
    requires last < a[0] && last < b[0]
    ensures Split(a, 0, last) && Split(b, 0, last)
    ensures CoveredUpTo(a, b, last, 0.0) && Gap(a, b, last) == 0.0
  {
    forall x | x <= last
      ensures Gap(a, b, x) == 0.0
    {
      CountIsPrefix(a, x, 0);
      CountIsPrefix(b, x, 0);
    }
  }

  lemma Attained(a: seq<real>, b: seq<real>, at: real, d: real)
    requires a != [] && b != [] && Gap(a, b, at) == d && forall x :: Gap(a, b, x) <= d
    ensures IsDistance(a, b, d)
  {
  }

  /** Sorting does not move the distance. */
  lemma SameDistance(a: seq<real>, b: seq<real>, d: real)
    requires a != [] && b != []
    requires IsDistance(Sort(a), Sort(b), d)
    ensures IsDistance(a, b, d)
  {
    forall x
      ensures Gap(Sort(a), Sort(b), x) == Gap(a, b, x)
    {
      SortCount(a, x);
      SortCount(b, x);
    }
    var x :| Gap(Sort(a), Sort(b), x) == d;
    assert Gap(a, b, x) == d;
  }

  method KsTwoSample(a: seq<real>, b: seq<real>) returns (d: real)
    ensures a == [] || b == [] ==> d == 1.0
    ensures a != [] && b != [] ==> IsDistance(a, b, d)
  {
    if a == [] || b == [] {
      return 1.0;
    }
    hide CountUpTo, Cdf, Gap, CoveredUpTo, Sort, IsDistance;
    var sa, sb := Sort(a), Sort(b);
    var na, nb := |sa| as real, |sb| as real;
    var i, j := 0, 0;
    d := 0.0;
    ghost var last := Lower(sa[0], sb[0]) - 1.0;
    ghost var at := last;
    Below(sa, sb, last);
    while i < |sa| && j < |sb|
      invariant Split(sa, i, last) && Split(sb, j, last)
      invariant CoveredUpTo(sa, sb, last, d)
      invariant Gap(sa, sb, at) == d
      decreases |sa| - i + |sb| - j
    {
      var x := Lower(sa[i], sb[j]);
      ghost var i0, j0 := i, j;
      i := PassUpTo(sa, i, last, x);
      j := PassUpTo(sb, j, last, x);
      var diff := Abs(i as real / na - j as real / nb);
      Passed(sa, sb, i0, j0, last, i, j, x, d);
      if diff > d {
        d, at := diff, x;
      }
      last := x;
    }
    Exhausted(sa, sb, i, j, last, d);
    Attained(sa, sb, at, d);
    SameDistance(a, b, d);
  }

  // ---- What the statistic means ----

  lemma DistanceIsUnique(a: seq<real>, b: seq<real>, d: real, e: real)
    requires a != [] && b != []
    requires IsDistance(a, b, d) && IsDistance(a, b, e)
    ensures d == e
  {
    var x :| Gap(a, b, x) == d;
    var y :| Gap(a, b, y) == e;
  }

  lemma DistanceIsSymmetric(a: seq<real>, b: seq<real>, d: real)
    requires a != [] && b != []
    ensures IsDistance(a, b, d) <==> IsDistance(b, a, d)
  {
    assert forall x :: Gap(a, b, x) == Gap(b, a, x);
  }

  lemma DistanceRange(a: seq<real>, b: seq<real>, d: real)
    requires a != [] && b != [] && IsDistance(a, b, d)
    ensures 0.0 <= d <= 1.0
  {
    var x :| Gap(a, b, x) == d;
    CdfRange(a, x);
    CdfRange(b, x);
  }

  /** Zero means the two empirical distributions are the same function. */
  lemma DistanceZero(a: seq<real>, b: seq<real>, d: real)
    requires a != [] && b != [] && IsDistance(a, b, d)
    ensures d == 0.0 <==> forall x :: Cdf(a, x) == Cdf(b, x)
  {
    if d == 0.0 {
      forall x
        ensures Cdf(a, x) == Cdf(b, x)
      {
        assert Gap(a, b, x) <= d;
      }
    }
  }

  ghost predicate AllBelow(a: seq<real>, b: seq<real>) {
    forall i, j :: 0 <= i < |a| && 0 <= j < |b| ==> a[i] < b[j]
  }

  lemma {:induction false} CountAll(s: seq<real>, x: real)
    ensures CountUpTo(s, x) == |s| <==> forall i :: 0 <= i < |s| ==> s[i] <= x
    ensures CountUpTo(s, x) == 0 <==> forall i :: 0 <= i < |s| ==> x < s[i]
  {
    if s != [] {
      CountAll(s[1..], x);
      CountMonotone(s[1..], x, x);
      assert s == [s[0]] + s[1..];
    }
  }

  lemma {:induction false} Greatest(a: seq<real>) returns (x: real)
    requires a != []
    ensures x in a && forall i :: 0 <= i < |a| ==> a[i] <= x
  {
    x := a[0];
    if |a| > 1 {
      var y := Greatest(a[1..]);
      assert a == [a[0]] + a[1..];
      x := if y < x then x else y;
    }
  }

  lemma SeparatedHasGapOne(a: seq<real>, b: seq<real>) returns (x: real)
    requires a != [] && b != [] && AllBelow(a, b)
    ensures Gap(a, b, x) == 1.0
  {
    x := Greatest(a);
    CountAll(a, x);
    CountAll(b, x);
    CdfRange(a, x);
    CdfRange(b, x);
  }

  /** One does not mean disjoint samples: it means one sample lies wholly below the other. */
  lemma DistanceOne(a: seq<real>, b: seq<real>, d: real)
    requires a != [] && b != [] && IsDistance(a, b, d)
    ensures d == 1.0 <==> AllBelow(a, b) || AllBelow(b, a)
  {
    DistanceRange(a, b, d);
    if AllBelow(a, b) {
      var x := SeparatedHasGapOne(a, b);
    } else if AllBelow(b, a) {
      var x := SeparatedHasGapOne(b, a);
      GapSymmetric(a, b, x);
    }
    if d == 1.0 {
      var x :| Gap(a, b, x) == d;
      CdfRange(a, x);
      CdfRange(b, x);
      CountAll(a, x);
      CountAll(b, x);
    }
  }
}
