/**
 What the variance of cmd/loadtest/timing.go is the variance of: deal the pooled values to two
 groups of the given sizes in every possible way and take U each time. Its mean is na * nw / 2,
 and its variance, for whatever ties, is the one the rank test computes.
 */
module RankVariance {
  import opened Sums
  import opened MannWhitney

  // ---------------------------------------------------------------- dealing and picking

  /** Twice U, less twice its mean, for one way to deal. */
  function Excess(a: seq<int>, w: seq<int>): int {
    Pairs2(a, w) - |a| * |w|
  }

  /** f of the excess, added up over all ways to deal xs on top of a and w, k of them to the first group. */
  function OverDeals(xs: seq<int>, k: nat, a: seq<int>, w: seq<int>, f: int -> int): int {
    if xs == [] then if k == 0 then f(Excess(a, w)) else 0
    else
      var init, x := xs[..|xs| - 1], xs[|xs| - 1];
      OverDeals(init, k, a, w + [x], f) + if k == 0 then 0 else OverDeals(init, k - 1, a + [x], w, f)
  }

  /** f of the picked numbers and b, added up over all ways to pick k of xs. */
  function OverPicks(xs: seq<int>, k: nat, b: int, f: int -> int): int {
    if xs == [] then if k == 0 then f(b) else 0
    else
      var init, x := xs[..|xs| - 1], xs[|xs| - 1];
      OverPicks(init, k, b, f) + if k == 0 then 0 else OverPicks(init, k - 1, b + x, f)
  }

  /** An observation's doubled rank, measured from the middle. */
  function Centered(pool: seq<int>): int -> int {
    x => Against(x, pool) - |pool|
  }

  lemma CenteredPlus(a: seq<int>, w: seq<int>, pool: seq<int>)
    requires multiset(a + w) == multiset(pool)
    ensures Sum(a, Centered(pool)) + |pool| * |a| == Pairs2(a, a + w)
  {
    var n := |pool|;
    SumAdd(a, Centered(pool), x => n, x => Against(x, a + w)) by {
      forall i | 0 <= i < |a| ensures Against(a[i], a + w) == Centered(pool)(a[i]) + n { PoolPerm(a[i], a + w, pool); }
    }
    SumConst(a, x => n, n);
  }

  lemma CenteredSum(a: seq<int>, w: seq<int>, pool: seq<int>)
    requires multiset(a + w) == multiset(pool)
    ensures Sum(a, Centered(pool)) == Excess(a, w)
  {
    CenteredPlus(a, w, pool);
    PairsConcat(a, a, w);
    PairsSelf(a);
    SameLength(a + w, pool);
    assert (|a| + |w|) * |a| == |a| * |a| + |a| * |w|;
  }

  /** What is still to deal and what the groups have make up the pool. */
  predicate Splits(xs: seq<int>, a: seq<int>, w: seq<int>, pool: seq<int>) {
    multiset(xs) + multiset(a) + multiset(w) == multiset(pool)
  }

  lemma DealtOne(init: seq<int>, x: int, a: seq<int>, w: seq<int>, pool: seq<int>)
    requires Splits(init + [x], a, w, pool)
    ensures Splits(init, a, w + [x], pool) && Splits(init, a + [x], w, pool)
  {}

  lemma MapInit(init: seq<int>, x: int, f: int -> int)
    ensures Map(init + [x], f) == Map(init, f) + [f(x)]
  {}

  lemma DealLast(init: seq<int>, x: int, k: nat, a: seq<int>, w: seq<int>, f: int -> int)
    ensures OverDeals(init + [x], k, a, w, f) ==
            OverDeals(init, k, a, w + [x], f) + if k == 0 then 0 else OverDeals(init, k - 1, a + [x], w, f)
  {
    assert (init + [x])[..|init|] == init;
  }

  lemma PickLast(init: seq<int>, x: int, k: nat, b: int, f: int -> int)
    ensures OverPicks(init + [x], k, b, f) ==
            OverPicks(init, k, b, f) + if k == 0 then 0 else OverPicks(init, k - 1, b + x, f)
  {
    assert (init + [x])[..|init|] == init;
  }

  lemma NothingLeft(k: nat, a: seq<int>, w: seq<int>, pool: seq<int>, f: int -> int)
    requires Splits([], a, w, pool)
    ensures OverDeals([], k, a, w, f) == OverPicks(Map([], Centered(pool)), k, Sum(a, Centered(pool)), f)
  {
    assert multiset(a + w) == multiset(pool);
    CenteredSum(a, w, pool);
  }

  lemma DealStep(init: seq<int>, x: int, k: nat, a: seq<int>, w: seq<int>, f: int -> int, c: int -> int)
    requires OverDeals(init, k, a, w + [x], f) == OverPicks(Map(init, c), k, Sum(a, c), f)
    requires k > 0 ==> OverDeals(init, k - 1, a + [x], w, f) == OverPicks(Map(init, c), k - 1, Sum(a + [x], c), f)
    ensures OverDeals(init + [x], k, a, w, f) == OverPicks(Map(init + [x], c), k, Sum(a, c), f)
  {
    SumSnoc(a, x, c);
    DealLast(init, x, k, a, w, f);
    MapInit(init, x, c);
    PickLast(Map(init, c), c(x), k, Sum(a, c), f);
  }

  /** U of a deal depends only on which centered ranks the first group got. */
  lemma {:induction false} DealsArePicks(xs: seq<int>, k: nat, a: seq<int>, w: seq<int>, pool: seq<int>, f: int -> int)
    requires Splits(xs, a, w, pool)
    ensures OverDeals(xs, k, a, w, f) == OverPicks(Map(xs, Centered(pool)), k, Sum(a, Centered(pool)), f)
  {
    if xs == [] {
      NothingLeft(k, a, w, pool, f);
    } else {
      var init, x := xs[..|xs| - 1], xs[|xs| - 1];
      assert xs == init + [x];
      DealtOne(init, x, a, w, pool);
      DealsArePicks(init, k, a, w + [x], pool, f);
      if k > 0 { DealsArePicks(init, k - 1, a + [x], w, pool, f); }
      DealStep(init, x, k, a, w, f, Centered(pool));
    }
  }

  // ---------------------------------------------------------------- counting

  /** Ways to pick k of n. */
  function Ways(n: nat, k: nat): nat {
    if n == 0 then if k == 0 then 1 else 0
    else Ways(n - 1, k) + if k == 0 then 0 else Ways(n - 1, k - 1)
  }

  /** Those that pick one given element, and those that pick two. */
  function Ways1(n: nat, k: nat): nat {
    if n >= 1 && k >= 1 then Ways(n - 1, k - 1) else 0
  }

  function Ways2(n: nat, k: nat): nat {
    if n >= 2 && k >= 2 then Ways(n - 2, k - 2) else 0
  }

  lemma {:induction false} WaysPositive(n: nat, k: nat)
    requires k <= n
    ensures Ways(n, k) >= 1
  {
    if k > 0 { WaysPositive(n - 1, k - 1); } else if n > 0 { WaysPositive(n - 1, 0); }
  }

  lemma {:induction false} TooMany(n: nat, k: nat)
    requires k > n
    ensures Ways(n, k) == 0
  {
    if n > 0 {
      TooMany(n - 1, k);
      TooMany(n - 1, k - 1);
    }
  }

  lemma AbsorbStep(n: int, k: int, p: int, q: int, r: int, s: int)
    requires (n - 1) * r == k * p && (n - 1) * s == (k - 1) * q && r + s == q
    ensures n * q == k * (p + q)
  {
    assert (n - 1) * (r + s) == (n - 1) * r + (n - 1) * s;
  }

  /** Picking first and then one of the picked, or first the one and then the rest. */
  lemma {:induction false} Absorb(n: nat, k: nat)
    requires n >= 1 && k >= 1
    ensures n * Ways(n - 1, k - 1) == k * Ways(n, k)
  {
    if n == 1 {
      if k > 1 { TooMany(1, k); }
    } else {
      Absorb(n - 1, k);
      if k >= 2 { Absorb(n - 1, k - 1); }
      AbsorbStep(n, k, Ways(n - 1, k), Ways(n - 1, k - 1), Ways(n - 2, k - 1), Ways1(n - 1, k - 1));
    }
  }

  lemma ComplementStep(n: int, k: int, p: int, q: int)
    requires n * q == k * (p + q)
    ensures n * p == (n - k) * (p + q)
  {
    assert n * (p + q) == n * p + n * q;
  }

  lemma Complement(n: nat, k: nat)
    requires n >= 1
    ensures n * Ways(n - 1, k) == (n - k) * Ways(n, k)
  {
    if k >= 1 { Absorb(n, k); }
    ComplementStep(n, k, Ways(n - 1, k), Ways1(n, k));
  }

  lemma MiddleStep(n: int, k: int, p: int, q: int, r: int)
    requires (n - 1) * p == (n - k) * q && n * q == k * r
    ensures n * (n - 1) * p == k * (n - k) * r
  {
    assert n * (n - 1) * p == n * ((n - 1) * p);
    assert n * ((n - k) * q) == (n - k) * (n * q);
    assert (n - k) * (k * r) == k * (n - k) * r;
  }

  lemma MiddleWays(n: nat, k: nat)
    requires n >= 2 && k >= 1
    ensures n * (n - 1) * Ways(n - 2, k - 1) == k * (n - k) * Ways(n, k)
  {
    Complement(n - 1, k - 1);
    Absorb(n, k);
    MiddleStep(n, k, Ways(n - 2, k - 1), Ways(n - 1, k - 1), Ways(n, k));
  }

  // ---------------------------------------------------------------- the moments

  function Square(x: int): int {
    x * x
  }

  function One(x: int): int {
    1
  }

  lemma {:induction false} CountPicks(xs: seq<int>, k: nat, b: int)
    ensures OverPicks(xs, k, b, One) == Ways(|xs|, k)
  {
    if xs != [] {
      var init, x := xs[..|xs| - 1], xs[|xs| - 1];
      CountPicks(init, k, b);
      if k > 0 { CountPicks(init, k - 1, b + x); }
    }
  }

  lemma ExpandFirst(p: int, q: int, r: int, s: int, b: int, x: int, sum: int)
    requires (r + s) * sum == q * sum
    ensures p * b + r * sum + (q * (b + x) + s * sum) == (p + q) * b + q * (sum + x)
  {}

  lemma WaysSplit(xs: seq<int>, k: nat, f: int -> int)
    requires k >= 1
    ensures (Ways1(|xs|, k) + Ways1(|xs|, k - 1)) * Sum(xs, f) == Ways(|xs|, k - 1) * Sum(xs, f)
  {
    if xs != [] { assert Ways1(|xs|, k) + Ways1(|xs|, k - 1) == Ways(|xs|, k - 1); }
  }

  function FirstOf(n: nat, k: nat, b: int, sum: int): int {
    Ways(n, k) * b + Ways1(n, k) * sum
  }

  lemma FirstStep(n: nat, k: nat, b: int, x: int, sum: int)
    requires k >= 1 && (Ways1(n, k) + Ways1(n, k - 1)) * sum == Ways(n, k - 1) * sum
    ensures FirstOf(n + 1, k, b, sum + x) == FirstOf(n, k, b, sum) + FirstOf(n, k - 1, b + x, sum)
  {
    ExpandFirst(Ways(n, k), Ways(n, k - 1), Ways1(n, k), Ways1(n, k - 1), b, x, sum);
  }

  lemma {:induction false} FirstMoment(xs: seq<int>, k: nat, b: int)
    ensures OverPicks(xs, k, b, Same) == FirstOf(|xs|, k, b, Total(xs))
  {
    if xs != [] {
      var init, x := xs[..|xs| - 1], xs[|xs| - 1];
      FirstMoment(init, k, b);
      if k > 0 {
        FirstMoment(init, k - 1, b + x);
        WaysSplit(init, k, Same);
        FirstStep(|init|, k, b, x, Total(init));
      }
    }
  }

  lemma ExpandSecond(p: int, q: int, r: int, s: int, t: int, u: int, b: int, x: int, sum: int, sq: int)
    requires (r + s) * sum == q * sum && (r + s) * sq == q * sq
    requires (t + u) * (sum * sum - sq) == s * (sum * sum - sq)
    ensures p * (b * b) + 2 * b * (r * sum) + r * sq + t * (sum * sum - sq) +
            (q * ((b + x) * (b + x)) + 2 * (b + x) * (s * sum) + s * sq + u * (sum * sum - sq)) ==
            (p + q) * (b * b) + 2 * b * (q * (sum + x)) + q * (sq + x * x) +
            s * ((sum + x) * (sum + x) - (sq + x * x))
  {
    assert q * ((b + x) * (b + x)) == q * (b * b) + 2 * b * (q * x) + q * (x * x);
    assert 2 * (b + x) * (s * sum) == 2 * b * (s * sum) + 2 * x * (s * sum);
    assert s * ((sum + x) * (sum + x) - (sq + x * x)) == s * (sum * sum - sq) + 2 * x * (s * sum);
    assert 2 * b * (q * (sum + x)) == 2 * b * (q * sum) + 2 * b * (q * x);
    assert 2 * b * (r * sum) + 2 * b * (s * sum) == 2 * b * ((r + s) * sum);
  }

  /** Two different elements are picked together as often as any other two. */
  lemma MixedSplit(xs: seq<int>, k: nat)
    requires k >= 1
    ensures var m := Total(xs) * Total(xs) - Sum(xs, Square);
      (Ways2(|xs|, k) + Ways2(|xs|, k - 1)) * m == Ways1(|xs|, k - 1) * m
  {
    if |xs| >= 2 {
      assert Ways2(|xs|, k) + Ways2(|xs|, k - 1) == Ways1(|xs|, k - 1);
    } else if |xs| == 1 {
      assert Total(xs) == xs[0] && Sum(xs, Square) == xs[0] * xs[0];
    }
  }

  function SecondOf(n: nat, k: nat, b: int, sum: int, sq: int): int {
    Ways(n, k) * (b * b) + 2 * b * (Ways1(n, k) * sum) + Ways1(n, k) * sq + Ways2(n, k) * (sum * sum - sq)
  }

  lemma SecondStep(n: nat, k: nat, b: int, x: int, sum: int, sq: int)
    requires k >= 1
    requires (Ways1(n, k) + Ways1(n, k - 1)) * sum == Ways(n, k - 1) * sum
    requires (Ways1(n, k) + Ways1(n, k - 1)) * sq == Ways(n, k - 1) * sq
    requires (Ways2(n, k) + Ways2(n, k - 1)) * (sum * sum - sq) == Ways1(n, k - 1) * (sum * sum - sq)
    ensures SecondOf(n + 1, k, b, sum + x, sq + x * x) ==
            SecondOf(n, k, b, sum, sq) + SecondOf(n, k - 1, b + x, sum, sq)
  {
    ExpandSecond(Ways(n, k), Ways(n, k - 1), Ways1(n, k), Ways1(n, k - 1), Ways2(n, k), Ways2(n, k - 1), b, x, sum, sq);
  }

  lemma {:induction false} SecondMoment(xs: seq<int>, k: nat, b: int)
    ensures OverPicks(xs, k, b, Square) == SecondOf(|xs|, k, b, Total(xs), Sum(xs, Square))
  {
    if xs != [] {
      var init, x := xs[..|xs| - 1], xs[|xs| - 1];
      SecondMoment(init, k, b);
      if k > 0 {
        SecondMoment(init, k - 1, b + x);
        WaysSplit(init, k, Same);
        WaysSplit(init, k, Square);
        MixedSplit(init, k);
        SecondStep(|init|, k, b, x, Total(init), Sum(init, Square));
      }
    }
  }

  // ---------------------------------------------------------------- the variance

  /** The centered ranks of the pool add up to nothing, and their squares to the spread. */
  lemma CenteredTotal(pool: seq<int>)
    ensures Total(Map(pool, Centered(pool))) == 0
  {
    SumMap(pool, Centered(pool), Same, Centered(pool));
    assert pool + [] == pool;
    CenteredSum(pool, [], pool);
    SumConst(pool, x => Against(x, []), 0);
  }

  lemma CenteredSquares(pool: seq<int>)
    ensures Sum(Map(pool, Centered(pool)), Square) == RankSpread(pool)
  {
    SumMap(pool, Centered(pool), Square, RankDeviation(pool));
  }

  lemma DealsCount(pool: seq<int>, k: nat)
    ensures OverDeals(pool, k, [], [], One) == Ways(|pool|, k)
  {
    DealsArePicks(pool, k, [], [], pool, One);
    CountPicks(Map(pool, Centered(pool)), k, 0);
  }

  lemma DealsMean(pool: seq<int>, k: nat)
    ensures OverDeals(pool, k, [], [], Same) == 0
  {
    DealsArePicks(pool, k, [], [], pool, Same);
    CenteredTotal(pool);
    FirstMoment(Map(pool, Centered(pool)), k, 0);
  }

  lemma SecondOfNothing(n: nat, k: nat, sq: int)
    requires n >= 2 && k >= 1
    ensures SecondOf(n, k, 0, 0, sq) == Ways(n - 2, k - 1) * sq
  {
    var middle, r, t := Ways(n - 2, k - 1), Ways1(n, k), Ways2(n, k);
    assert r == middle + t;
    assert SecondOf(n, k, 0, 0, sq) == r * sq - t * sq == (r - t) * sq;
  }

  lemma DealsSpread(pool: seq<int>, k: nat)
    requires |pool| >= 2 && k >= 1
    ensures OverDeals(pool, k, [], [], Square) == Ways(|pool| - 2, k - 1) * RankSpread(pool)
  {
    DealsArePicks(pool, k, [], [], pool, Square);
    CenteredTotal(pool);
    CenteredSquares(pool);
    SecondMoment(Map(pool, Centered(pool)), k, 0);
    SecondOfNothing(|pool|, k, RankSpread(pool));
  }

  lemma CancelPairs(d: real, v: real, total: real, ways: real, p: real, middle: real, spread: real)
    requires d > 0.0 && 4.0 * d * v == p * spread
    requires d * middle == p * ways && total == middle * spread
    ensures total == 4.0 * v * ways
  {
    assert d * total == (d * middle) * spread == (p * ways) * spread == (p * spread) * ways;
    assert (p * spread) * ways == (4.0 * d * v) * ways == d * (4.0 * v * ways);
  }

  lemma ToReals(na: nat, nw: nat, middle: nat, ways: nat)
    requires na > 0 && nw > 0 && (na + nw) * (na + nw - 1) * middle == na * nw * ways
    ensures OrderedPairs(na + nw) * middle as real == na as real * nw as real * ways as real
  {
    var n, p, q := na + nw, (na + nw) * (na + nw - 1), na * nw;
    assert p as real == n as real * (n as real - 1.0);
    assert q as real == na as real * nw as real;
    assert (p * middle) as real == p as real * middle as real;
    assert (q * ways) as real == q as real * ways as real;
  }

  lemma ProductReal(x: int, y: int)
    ensures (x * y) as real == x as real * y as real
  {}

  lemma AverageReal(d: real, p: real, v: real, total: int, ways: int, middle: int, spread: int)
    requires d > 0.0 && 4.0 * d * v == p * spread as real
    requires d * middle as real == p * ways as real && total == middle * spread
    ensures total as real == 4.0 * v * ways as real
  {
    ProductReal(middle, spread);
    CancelPairs(d, v, total as real, ways as real, p, middle as real, spread as real);
  }

  lemma AverageIs(na: nat, nw: nat, v: real, total: int, ways: nat, middle: nat, spread: int)
    requires na > 0 && nw > 0 && IsRankVariance(v, na, nw, spread) && total == middle * spread
    requires (na + nw) * (na + nw - 1) * middle == na * nw * ways
    ensures total as real == 4.0 * v * ways as real
  {
    SomePairs(na + nw);
    ToReals(na, nw, middle, ways);
    AverageReal(OrderedPairs(na + nw), na as real * nw as real, v, total, ways, middle, spread);
  }

  /** total is 4 * v for each of count on average. */
  predicate MeanIs(v: real, total: int, count: int) {
    count >= 1 && total as real == 4.0 * v * count as real
  }

  lemma MeanSquare(na: nat, nw: nat, v: real, total: int, count: int, spread: int)
    requires na > 0 && nw > 0 && IsRankVariance(v, na, nw, spread)
    requires count == Ways(na + nw, na) && total == Ways(na + nw - 2, na - 1) * spread
    ensures MeanIs(v, total, count)
  {
    WaysPositive(na + nw, na);
    MiddleWays(na + nw, na);
    AverageIs(na, nw, v, total, count, Ways(na + nw - 2, na - 1), spread);
  }

  /**
   Over all ways to deal the pool, na values to the first group, U is na * nw / 2 on average and v is
   its variance: the mean of (U - na * nw / 2)^2. OverDeals works with twice U.
   */
  predicate IsVarianceOfU(v: real, pool: seq<int>, na: nat) {
    && OverDeals(pool, na, [], [], Same) == 0
    && MeanIs(v, OverDeals(pool, na, [], [], Square), OverDeals(pool, na, [], [], One))
  }

  /** What the ranks' spread gives is that variance. */
  lemma SpreadGivesVariance(v: real, pool: seq<int>, na: nat, nw: nat)
    requires na > 0 && nw > 0 && |pool| == na + nw && IsRankVariance(v, na, nw, RankSpread(pool))
    ensures IsVarianceOfU(v, pool, na)
  {
    DealsCount(pool, na);
    DealsMean(pool, na);
    DealsSpread(pool, na);
    MeanSquare(na, nw, v, OverDeals(pool, na, [], [], Square), OverDeals(pool, na, [], [], One), RankSpread(pool));
  }

  /** And so is varU, whatever the ties. */
  lemma VarUIsTheVariance(pool: seq<int>, na: nat, nw: nat)
    requires na > 0 && nw > 0 && |pool| == na + nw
    ensures IsVarianceOfU(VarU(na, nw, TieSum(pool)), pool, na)
  {
    VarUIsRankVariance(na, nw, pool);
    SpreadGivesVariance(VarU(na, nw, TieSum(pool)), pool, na, nw);
  }
}
