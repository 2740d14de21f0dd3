/** Nearest-rank percentiles of cmd/loadtest/stats.go over sorted durations, with exact reals for p. */
module Percentiles {
  import opened Sums
  import opened Sorting

  function Ceil(x: real): int {
    -((-x).Floor)
  }

  /** int(math.Ceil(p/100*n)) - 1, clamped into the slice. */
  function RankIndex(n: nat, p: real): (k: nat)
    requires n > 0
    ensures k < n
  {
    var idx := Ceil(p / 100.0 * n as real) - 1;
    if idx < 0 then 0 else if idx >= n then n - 1 else idx
  }

  function Percentile(sorted: seq<int>, p: real): int {
    if sorted == [] then 0 else sorted[RankIndex(|sorted|, p)]
  }

  // ---------------------------------------------------------------- what a percentile is

  function AtMost(v: int): int -> int {
    x => if x <= v then 1 else 0
  }

  /** How many samples are at or below v. */
  function CountLe(s: seq<int>, v: int): int {
    Sum(s, AtMost(v))
  }

  lemma {:induction false} CountNonNegative(s: seq<int>, v: int)
    ensures 0 <= CountLe(s, v) <= |s|
  {
    if s != [] { CountNonNegative(s[..|s| - 1], v); }
  }

  lemma CountAtLeast(s: seq<int>, v: int, k: nat)
    requires Ascending(s) && k < |s| && s[k] <= v
    ensures CountLe(s, v) >= k + 1
  {
    assert s == s[..k + 1] + s[k + 1..];
    SumConcat(s[..k + 1], s[k + 1..], AtMost(v));
    SumConst(s[..k + 1], AtMost(v), 1);
    CountNonNegative(s[k + 1..], v);
  }

  lemma CountAtMost(s: seq<int>, v: int, k: nat)
    requires Ascending(s) && k < |s| && s[k] > v
    ensures CountLe(s, v) <= k
  {
    assert s == s[..k] + s[k..];
    SumConcat(s[..k], s[k..], AtMost(v));
    SumConst(s[k..], AtMost(v), 0);
    CountNonNegative(s[..k], v);
  }

  /** At least p percent of the samples are at or below v. */
  predicate Covers(s: seq<int>, p: real, v: int) {
    CountLe(s, v) as real >= p / 100.0 * |s| as real
  }

  lemma ScaleReal(p: real, q: real, n: nat)
    requires p <= q
    ensures p * n as real <= q * n as real
  {
    assert (q - p) * n as real >= 0.0;
  }

  lemma PercentOf(p: real, n: nat)
    requires n > 0 && 0.0 < p <= 100.0
    ensures 0.0 < p / 100.0 * n as real <= n as real
  {
    var q := p / 100.0;
    assert 0.0 < q <= 1.0;
    ScaleReal(q, 1.0, n);
    assert q * n as real > 0.0;
  }

  lemma RankIndexExact(n: nat, p: real)
    requires n > 0 && 0.0 < p <= 100.0
    ensures RankIndex(n, p) as real < p / 100.0 * n as real <= RankIndex(n, p) as real + 1.0
  {
    var x := p / 100.0 * n as real;
    PercentOf(p, n);
    assert 0.0 < x <= n as real;
  }

  /** For 0 < p <= 100 the percentile is the least sample that covers p percent of the samples. */
  lemma PercentileIsLeastCovering(s: seq<int>, p: real)
    requires Ascending(s) && s != [] && 0.0 < p <= 100.0
    ensures Percentile(s, p) in s && Covers(s, p, Percentile(s, p))
    ensures forall v :: v in s && Covers(s, p, v) ==> Percentile(s, p) <= v
  {
    var k := RankIndex(|s|, p);
    RankIndexExact(|s|, p);
    CountAtLeast(s, s[k], k);
    forall v | v in s && Covers(s, p, v) ensures s[k] <= v {
      if s[k] > v { CountAtMost(s, v, k); }
    }
  }

  lemma CeilMono(x: real, y: real)
    requires x <= y
    ensures Ceil(x) <= Ceil(y)
  {}

  /** Monotone in p, for every real p, including those outside 0..100. */
  lemma PercentileMonotone(s: seq<int>, p: real, q: real)
    requires Ascending(s) && p <= q
    ensures Percentile(s, p) <= Percentile(s, q)
  {
    if s != [] {
      ScaleReal(p / 100.0, q / 100.0, |s|);
      CeilMono(p / 100.0 * |s| as real, q / 100.0 * |s| as real);
    }
  }

  // ---------------------------------------------------------------- sorting keeps pointwise order

  lemma {:induction false} PointwiseCount(x: seq<int>, y: seq<int>, v: int)
    requires |x| == |y| && forall i :: 0 <= i < |x| ==> x[i] <= y[i]
    ensures CountLe(y, v) <= CountLe(x, v)
  {
    if x != [] {
      PointwiseCount(x[..|x| - 1], y[..|y| - 1], v);
    }
  }

  /**
   If every sample of x is at most the sample of y at the same place, the same holds after
   both are sorted, however the two sorts permute them.
   */
  lemma SortingKeepsDomination(x: seq<int>, y: seq<int>, sx: seq<int>, sy: seq<int>, k: nat)
    requires |x| == |y| && forall i :: 0 <= i < |x| ==> x[i] <= y[i]
    requires multiset(sx) == multiset(x) && multiset(sy) == multiset(y) && Ascending(sx) && Ascending(sy)
    requires k < |sx| && k < |sy|
    ensures sx[k] <= sy[k]
  {
    if sx[k] > sy[k] {
      var v := sy[k];
      CountAtLeast(sy, v, k);
      CountAtMost(sx, v, k);
      SumPerm(sx, x, AtMost(v));
      SumPerm(sy, y, AtMost(v));
      PointwiseCount(x, y, v);
    }
  }

  lemma {:induction false} StrictCount(x: seq<int>, y: seq<int>, v: int)
    requires |x| == |y| && forall i :: 0 <= i < |x| ==> x[i] < y[i]
    ensures CountLe(y, v) <= CountLe(x, v - 1)
  {
    if x != [] {
      StrictCount(x[..|x| - 1], y[..|y| - 1], v);
    }
  }

  /** The same for strictly larger samples. */
  lemma SortingKeepsStrictness(x: seq<int>, y: seq<int>, sx: seq<int>, sy: seq<int>, k: nat)
    requires |x| == |y| && forall i :: 0 <= i < |x| ==> x[i] < y[i]
    requires multiset(sx) == multiset(x) && multiset(sy) == multiset(y) && Ascending(sx) && Ascending(sy)
    requires k < |sx| && k < |sy|
    ensures sx[k] < sy[k]
  {
    if sx[k] >= sy[k] {
      var v := sy[k];
      CountAtLeast(sy, v, k);
      CountAtMost(sx, v - 1, k);
      SumPerm(sx, x, AtMost(v - 1));
      SumPerm(sy, y, AtMost(v));
      StrictCount(x, y, v);
    }
  }

  lemma PercentileDomination(x: seq<int>, y: seq<int>, sx: seq<int>, sy: seq<int>, p: real)
    requires |x| == |y| && forall i :: 0 <= i < |x| ==> x[i] <= y[i]
    requires multiset(sx) == multiset(x) && multiset(sy) == multiset(y) && Ascending(sx) && Ascending(sy)
    ensures Percentile(sx, p) <= Percentile(sy, p)
  {
    SameLength(sx, x);
    SameLength(sy, y);
    if sx != [] {
      SortingKeepsDomination(x, y, sx, sy, RankIndex(|sx|, p));
    }
  }

  lemma PercentileStrictness(x: seq<int>, y: seq<int>, sx: seq<int>, sy: seq<int>, p: real)
    requires |x| == |y| && x != [] && forall i :: 0 <= i < |x| ==> x[i] < y[i]
    requires multiset(sx) == multiset(x) && multiset(sy) == multiset(y) && Ascending(sx) && Ascending(sy)
    ensures Percentile(sx, p) < Percentile(sy, p)
  {
    SameLength(sx, x);
    SameLength(sy, y);
    SortingKeepsStrictness(x, y, sx, sy, RankIndex(|sx|, p));
  }

  // ---------------------------------------------------------------- how many lie between two percentiles

  /** v is the least of vals with at least p percent of vals at or below it. */
  ghost predicate IsPercentile(vals: seq<int>, p: real, v: int) {
    && v in vals && Covers(vals, p, v)
    && forall u :: u in vals && Covers(vals, p, u) ==> v <= u
  }

  lemma CoversPerm(s: seq<int>, t: seq<int>, p: real, v: int)
    requires multiset(s) == multiset(t)
    ensures Covers(s, p, v) <==> Covers(t, p, v)
    ensures v in s <==> v in t
  {
    SameLength(s, t);
    SumPerm(s, t, AtMost(v));
    assert v in multiset(s) <==> v in multiset(t);
  }

  /** The percentile of a sorted arrangement, said of the values in any order. */
  lemma PercentileOfAnyOrder(vals: seq<int>, sorted: seq<int>, p: real)
    requires vals != [] && Ascending(sorted) && multiset(sorted) == multiset(vals) && 0.0 < p <= 100.0
    ensures IsPercentile(vals, p, Percentile(sorted, p))
  {
    SameLength(sorted, vals);
    var v := Percentile(sorted, p);
    PercentileIsLeastCovering(sorted, p);
    CoversPerm(sorted, vals, p, v);
    forall u | u in vals && Covers(vals, p, u) ensures v <= u { CoversPerm(sorted, vals, p, u); }
  }

  function Between(lo: int, hi: int): int -> int {
    x => if lo <= x <= hi then 1 else 0
  }

  /** How many values lie in [lo, hi]. */
  function CountBetween(s: seq<int>, lo: int, hi: int): int {
    Sum(s, Between(lo, hi))
  }

  lemma CountBetweenIs(s: seq<int>, lo: int, hi: int)
    requires lo <= hi
    ensures CountBetween(s, lo, hi) == CountLe(s, hi) - CountLe(s, lo - 1)
  {
    SumAdd(s, Between(lo, hi), AtMost(lo - 1), AtMost(hi));
  }

  lemma PercentDifference(p: real, q: real, n: nat)
    ensures (q - p) / 100.0 * n as real == q / 100.0 * n as real - p / 100.0 * n as real
  {
    var x, y := q / 100.0, p / 100.0;
    assert (q - p) / 100.0 == x - y;
  }

  /** At least q - p percent of the samples lie between the p-th and the q-th percentile. */
  lemma BetweenPercentiles(s: seq<int>, p: real, q: real)
    requires Ascending(s) && s != [] && 0.0 < p <= q <= 100.0
    ensures CountBetween(s, Percentile(s, p), Percentile(s, q)) as real >= (q - p) / 100.0 * |s| as real
  {
    var lo, hi, n := Percentile(s, p), Percentile(s, q), |s|;
    PercentileMonotone(s, p, q);
    PercentileIsLeastCovering(s, q);
    CountAtMost(s, lo - 1, RankIndex(n, p));
    RankIndexExact(n, p);
    CountBetweenIs(s, lo, hi);
    PercentDifference(p, q, n);
  }

  // ---------------------------------------------------------------- the bootstrap

  predicate Within(s: seq<int>, lo: int, hi: int) {
    forall i :: 0 <= i < |s| ==> lo <= s[i] <= hi
  }

  lemma PermWithin(s: seq<int>, t: seq<int>, lo: int, hi: int)
    requires multiset(s) == multiset(t) && Within(s, lo, hi)
    ensures Within(t, lo, hi)
  {
    forall i | 0 <= i < |t| ensures lo <= t[i] <= hi {
      assert t[i] in multiset(t);
      assert t[i] in s;
    }
  }

  lemma PercentileWithin(s: seq<int>, p: real, lo: int, hi: int)
    requires s != [] && Within(s, lo, hi)
    ensures lo <= Percentile(s, p) <= hi
  {}

  function Min(s: seq<int>): (m: int)
    requires s != []
    ensures m in s && forall x :: x in s ==> m <= x
  {
    if |s| == 1 then s[0]
    else
      var m := Min(s[1..]);
      assert forall x :: x in s ==> x == s[0] || x in s[1..];
      if s[0] <= m then s[0] else m
  }

  function Max(s: seq<int>): (m: int)
    requires s != []
    ensures m in s && forall x :: x in s ==> x <= m
  {
    if |s| == 1 then s[0]
    else
      var m := Max(s[1..]);
      assert forall x :: x in s ==> x == s[0] || x in s[1..];
      if s[0] >= m then s[0] else m
  }

  const BOOTSTRAP_ROUNDS: nat := 2000
  const BOOTSTRAP_ALPHA: real := 0.05

  /** n values of s drawn with replacement; draw number c picks index draws(c) modulo |s|. */
  function Drawn(s: seq<int>, draws: nat -> nat, c: nat, n: nat): (r: seq<int>)
    requires s != []
    ensures |r| == n
  {
    seq(n, j requires 0 <= j < n => s[draws(c + j) % |s|])
  }

  /** Value j of r is the one of s that draw number c + j picks. */
  predicate Resampled(r: seq<int>, s: seq<int>, draws: nat -> nat, c: nat) {
    |r| == |s| && forall j :: 0 <= j < |r| ==> r[j] == s[draws(c + j) % |s|]
  }

  lemma DrawnIs(s: seq<int>, draws: nat -> nat, c: nat)
    requires s != []
    ensures Resampled(Drawn(s, draws, c, |s|), s, draws, c)
  {}

  ghost function Median(s: seq<int>): int {
    Percentile(SortInts(s), 50.0)
  }

  lemma HalfCovers(s: seq<int>, v: int)
    ensures Covers(s, 50.0, v) <==> 2 * CountLe(s, v) >= |s|
  {
    assert 50.0 / 100.0 == 0.5;
    assert 0.5 * |s| as real * 2.0 == |s| as real;
  }

  /** The median is the least value with at least half of the values at or below it. */
  lemma MedianIs(s: seq<int>)
    requires s != []
    ensures Median(s) in s && 2 * CountLe(s, Median(s)) >= |s|
    ensures forall v :: v in s && 2 * CountLe(s, v) >= |s| ==> Median(s) <= v
  {
    PercentileOfAnyOrder(s, SortInts(s), 50.0);
    forall v ensures Covers(s, 50.0, v) <==> 2 * CountLe(s, v) >= |s| { HalfCovers(s, v); }
  }

  ghost function DrawnMedian(s: seq<int>, draws: nat -> nat, c: nat): int
    requires s != []
  {
    Median(Drawn(s, draws, c, |s|))
  }

  /** Draws used up by the first i rounds. */
  function Used(perRound: nat, i: nat): nat {
    if i == 0 then 0 else Used(perRound, i - 1) + perRound
  }

  /** One round from draw c on: first a, then w is redrawn. */
  ghost function RoundDiff(a: seq<int>, w: seq<int>, draws: nat -> nat, c: nat): int
    requires a != [] && w != []
  {
    DrawnMedian(w, draws, c + |a|) - DrawnMedian(a, draws, c)
  }

  ghost function MedianDiff(a: seq<int>, w: seq<int>, draws: nat -> nat, i: nat): int
    requires a != [] && w != []
  {
    RoundDiff(a, w, draws, Used(|a| + |w|, i))
  }

  lemma {:induction false} UsedIs(perRound: nat, i: nat)
    ensures Used(perRound, i) == i * perRound
  {
    if i > 0 { UsedIs(perRound, i - 1); }
  }

  lemma RoundFrom(a: seq<int>, w: seq<int>, draws: nat -> nat, c: nat) returns (ra: seq<int>, rw: seq<int>)
    requires a != [] && w != []
    ensures RoundDiff(a, w, draws, c) == Median(rw) - Median(ra)
    ensures Resampled(ra, a, draws, c) && Resampled(rw, w, draws, c + |a|)
  {
    ra, rw := Drawn(a, draws, c, |a|), Drawn(w, draws, c + |a|, |w|);
    DrawnIs(a, draws, c);
    DrawnIs(w, draws, c + |a|);
  }

  /**
   Round i looks at its own |a| + |w| draws, one for each value of its two resamples, so no draw is
   used twice; its difference is the second resample's median less the first's.
   */
  lemma RoundResamples(a: seq<int>, w: seq<int>, draws: nat -> nat, i: nat) returns (ra: seq<int>, rw: seq<int>)
    requires a != [] && w != []
    ensures i * (|a| + |w|) >= 0 && MedianDiff(a, w, draws, i) == Median(rw) - Median(ra)
    ensures Resampled(ra, a, draws, i * (|a| + |w|)) && Resampled(rw, w, draws, i * (|a| + |w|) + |a|)
  {
    UsedIs(|a| + |w|, i);
    ra, rw := RoundFrom(a, w, draws, Used(|a| + |w|, i));
  }

  ghost function MedianDiffs(a: seq<int>, w: seq<int>, draws: nat -> nat, rounds: nat): (r: seq<int>)
    requires a != [] && w != []
    ensures |r| == rounds && forall i :: 0 <= i < rounds ==> r[i] == MedianDiff(a, w, draws, i)
  {
    seq(rounds, i requires 0 <= i < rounds => MedianDiff(a, w, draws, i))
  }

  /** Two sorted arrangements of the same numbers are the same sequence. */
  lemma SortedOnce(s: seq<int>, t: seq<int>)
    requires Ascending(s) && Ascending(t) && multiset(s) == multiset(t)
    ensures s == t
  {
    SameLength(s, t);
    forall k | 0 <= k < |s| ensures s[k] == t[k] {
      SortingKeepsDomination(s, s, s, t, k);
      SortingKeepsDomination(s, s, t, s, k);
    }
  }

  lemma MedianWithin(s: seq<int>, lo: int, hi: int)
    requires s != [] && Within(s, lo, hi)
    ensures lo <= Median(s) <= hi
  {
    PermWithin(s, SortInts(s), lo, hi);
    PercentileWithin(SortInts(s), 50.0, lo, hi);
  }

  lemma DrawnWithin(s: seq<int>, draws: nat -> nat, c: nat, n: nat)
    requires s != []
    ensures Within(Drawn(s, draws, c, n), Min(s), Max(s))
  {
    var r := Drawn(s, draws, c, n);
    forall j | 0 <= j < n ensures Min(s) <= r[j] <= Max(s) { assert r[j] in s; }
  }

  lemma DrawnMedianWithin(s: seq<int>, draws: nat -> nat, c: nat)
    requires s != []
    ensures Min(s) <= DrawnMedian(s, draws, c) <= Max(s)
  {
    DrawnWithin(s, draws, c, |s|);
    MedianWithin(Drawn(s, draws, c, |s|), Min(s), Max(s));
  }

  lemma RoundWithin(a: seq<int>, w: seq<int>, draws: nat -> nat, c: nat)
    requires a != [] && w != []
    ensures Min(w) - Max(a) <= RoundDiff(a, w, draws, c) <= Max(w) - Min(a)
  {
    DrawnMedianWithin(a, draws, c);
    DrawnMedianWithin(w, draws, c + |a|);
  }

  ghost function Low(a: seq<int>, w: seq<int>, draws: nat -> nat, rounds: nat): int
    requires a != [] && w != []
  {
    Percentile(SortInts(MedianDiffs(a, w, draws, rounds)), BOOTSTRAP_ALPHA / 2.0 * 100.0)
  }

  ghost function High(a: seq<int>, w: seq<int>, draws: nat -> nat, rounds: nat): int
    requires a != [] && w != []
  {
    Percentile(SortInts(MedianDiffs(a, w, draws, rounds)), (1.0 - BOOTSTRAP_ALPHA / 2.0) * 100.0)
  }

  /** Whatever is drawn, the interval is ordered and lies between the extreme differences of the samples. */
  lemma BootstrapInterval(a: seq<int>, w: seq<int>, draws: nat -> nat, rounds: nat)
    requires a != [] && w != [] && rounds > 0
    ensures Min(w) - Max(a) <= Low(a, w, draws, rounds) <= High(a, w, draws, rounds) <= Max(w) - Min(a)
  {
    var diffs := MedianDiffs(a, w, draws, rounds);
    var low, high := Min(w) - Max(a), Max(w) - Min(a);
    forall i | 0 <= i < |diffs| ensures low <= diffs[i] <= high { RoundWithin(a, w, draws, Used(|a| + |w|, i)); }
    PermWithin(diffs, SortInts(diffs), low, high);
    PercentileMonotone(SortInts(diffs), BOOTSTRAP_ALPHA / 2.0 * 100.0, (1.0 - BOOTSTRAP_ALPHA / 2.0) * 100.0);
    PercentileWithin(SortInts(diffs), BOOTSTRAP_ALPHA / 2.0 * 100.0, low, high);
    PercentileWithin(SortInts(diffs), (1.0 - BOOTSTRAP_ALPHA / 2.0) * 100.0, low, high);
  }

  lemma NinetyFive(k: int, n: nat)
    requires k as real >= (97.5 - 2.5) / 100.0 * n as real
    ensures 100 * k >= 95 * n
  {
    assert (97.5 - 2.5) / 100.0 == 0.95;
    assert 100.0 * (0.95 * n as real) == 95.0 * n as real;
  }

  lemma MostInside(sorted: seq<int>, vals: seq<int>)
    requires Ascending(sorted) && multiset(sorted) == multiset(vals) && vals != []
    ensures 100 * CountBetween(vals, Percentile(sorted, 2.5), Percentile(sorted, 97.5)) >= 95 * |vals|
  {
    SameLength(sorted, vals);
    var lo, hi := Percentile(sorted, 2.5), Percentile(sorted, 97.5);
    BetweenPercentiles(sorted, 2.5, 97.5);
    SumPerm(sorted, vals, Between(lo, hi));
    NinetyFive(CountBetween(vals, lo, hi), |vals|);
  }

  lemma IntervalEnds(a: seq<int>, w: seq<int>, draws: nat -> nat, rounds: nat)
    requires a != [] && w != []
    ensures var sorted := SortInts(MedianDiffs(a, w, draws, rounds));
      Low(a, w, draws, rounds) == Percentile(sorted, 2.5) && High(a, w, draws, rounds) == Percentile(sorted, 97.5)
  {
    assert BOOTSTRAP_ALPHA / 2.0 * 100.0 == 2.5;
    assert (1.0 - BOOTSTRAP_ALPHA / 2.0) * 100.0 == 97.5;
  }

  /** The interval runs from the 2.5th to the 97.5th percentile of the rounds' differences. */
  lemma IntervalIs(a: seq<int>, w: seq<int>, draws: nat -> nat, rounds: nat)
    requires a != [] && w != [] && rounds > 0
    ensures IsPercentile(MedianDiffs(a, w, draws, rounds), 2.5, Low(a, w, draws, rounds))
    ensures IsPercentile(MedianDiffs(a, w, draws, rounds), 97.5, High(a, w, draws, rounds))
  {
    var diffs := MedianDiffs(a, w, draws, rounds);
    IntervalEnds(a, w, draws, rounds);
    PercentileOfAnyOrder(diffs, SortInts(diffs), 2.5);
    PercentileOfAnyOrder(diffs, SortInts(diffs), 97.5);
  }

  /** At least 95 percent of the rounds' differences lie in the interval. */
  lemma MostDifferencesInside(a: seq<int>, w: seq<int>, draws: nat -> nat, rounds: nat)
    requires a != [] && w != [] && rounds > 0
    ensures var diffs := MedianDiffs(a, w, draws, rounds);
      100 * CountBetween(diffs, Low(a, w, draws, rounds), High(a, w, draws, rounds)) >= 95 * rounds
  {
    var diffs := MedianDiffs(a, w, draws, rounds);
    IntervalEnds(a, w, draws, rounds);
    MostInside(SortInts(diffs), diffs);
  }

  /** Refills r in place. */
  method Resample(s: seq<int>, r: array<int>, draws: nat -> nat, c: nat)
    requires s != []
    modifies r
    ensures r[..] == Drawn(s, draws, c, r.Length)
  {
    for j := 0 to r.Length
      invariant forall i :: 0 <= i < j ==> r[i] == s[draws(c + i) % |s|]
    {
      r[j] := s[draws(c + j) % |s|];
    }
  }

  /** Sorts one resample in place and takes its median. */
  method MedianOf(r: array<int>) returns (m: int)
    modifies r
    ensures m == Median(old(r[..]))
  {
    ghost var before := r[..];
    SortDurations(r);
    SortedOnce(r[..], SortInts(before));
    m := Percentile(r[..], 50.0);
  }

  /** Redraws one sample into its buffer and takes the median. */
  method RedrawnMedian(s: seq<int>, r: array<int>, draws: nat -> nat, c: nat) returns (m: int)
    requires s != [] && r.Length == |s|
    modifies r
    ensures m == DrawnMedian(s, draws, c)
  {
    Resample(s, r, draws, c);
    m := MedianOf(r);
  }

  method Round(a: seq<int>, w: seq<int>, ra: array<int>, rw: array<int>, draws: nat -> nat, c: nat) returns (d: int)
    requires a != [] && w != [] && ra.Length == |a| && rw.Length == |w|
    modifies ra, rw
    ensures d == RoundDiff(a, w, draws, c)
  {
    var ma := RedrawnMedian(a, ra, draws, c);
    var mw := RedrawnMedian(w, rw, draws, c + |a|);
    d := mw - ma;
  }

  /** The resample loop over the reused buffers. */
  method AllRounds(a: seq<int>, w: seq<int>, draws: nat -> nat, rounds: nat) returns (diffs: array<int>)
    requires a != [] && w != []
    ensures fresh(diffs) && diffs[..] == MedianDiffs(a, w, draws, rounds)
  {
    diffs := new int[rounds];
    var ra := new int[|a|];
    var rw := new int[|w|];
    var c: nat := 0;
    for i := 0 to rounds
      invariant c == Used(|a| + |w|, i)
      invariant forall k :: 0 <= k < i ==> diffs[k] == MedianDiff(a, w, draws, k)
    {
      diffs[i] := Round(a, w, ra, rw, draws, c);
      c := c + (|a| + |w|);
    }
  }

  method Interval(a: seq<int>, w: seq<int>, draws: nat -> nat, rounds: nat) returns (lo: int, hi: int)
    requires a != [] && w != []
    ensures lo == Low(a, w, draws, rounds) && hi == High(a, w, draws, rounds)
  {
    var diffs := AllRounds(a, w, draws, rounds);
    ghost var all := diffs[..];
    SortDurations(diffs);
    SortedOnce(diffs[..], SortInts(all));
    lo := Percentile(diffs[..], BOOTSTRAP_ALPHA / 2.0 * 100.0);
    hi := Percentile(diffs[..], (1.0 - BOOTSTRAP_ALPHA / 2.0) * 100.0);
  }

  /** bootstrapMedianDiffCI for any source of random draws. */
  method BootstrapMedianDiffCI(a: seq<int>, w: seq<int>, draws: nat -> nat) returns (lo: int, hi: int)
    ensures a == [] || w == [] ==> lo == hi == 0
    ensures a != [] && w != [] ==> lo == Low(a, w, draws, BOOTSTRAP_ROUNDS) && hi == High(a, w, draws, BOOTSTRAP_ROUNDS)
    ensures a != [] && w != [] ==> Min(w) - Max(a) <= lo <= hi <= Max(w) - Min(a)
    ensures a != [] && w != [] ==>
      IsPercentile(MedianDiffs(a, w, draws, 2000), 2.5, lo) && IsPercentile(MedianDiffs(a, w, draws, 2000), 97.5, hi)
    ensures a != [] && w != [] ==> CountBetween(MedianDiffs(a, w, draws, 2000), lo, hi) >= 1900
  {
    if a == [] || w == [] { return 0, 0; }
    BootstrapInterval(a, w, draws, BOOTSTRAP_ROUNDS);
    IntervalIs(a, w, draws, BOOTSTRAP_ROUNDS);
    MostDifferencesInside(a, w, draws, BOOTSTRAP_ROUNDS);
    lo, hi := Interval(a, w, draws, BOOTSTRAP_ROUNDS);
  }
}
