/**
 The rank-sum test of cmd/loadtest/timing.go. The rank loop is proved against the pairwise
 definition of U, so the result cannot depend on how the sort orders tied observations, and
 the accumulated tie correction against a sum over observations. Exact reals stand for float64.
 */
module MannWhitney {
  import opened Sums
  import opened Sorting

  datatype Obs = Obs(v: int, g: int)

  // ---------------------------------------------------------------- reference definitions

  /** Twice what one pair is worth: 2 when x beats y, 1 for a tie. */
  function Score(x: int, y: int): int {
    if y < x then 2 else if y == x then 1 else 0
  }

  function ScoreOf(x: int): int -> int {
    y => Score(x, y)
  }

  /** Twice the pairs x wins against ys, ties counting half. */
  function Against(x: int, ys: seq<int>): int {
    Sum(ys, ScoreOf(x))
  }

  /** Twice U for xs over ys, straight from the pairwise definition. */
  function Pairs2(xs: seq<int>, ys: seq<int>): int {
    Sum(xs, x => Against(x, ys))
  }

  function Equal(x: int): int -> int {
    y => if y == x then 1 else 0
  }

  /** How many of ys equal x. */
  function Ties(x: int, ys: seq<int>): int {
    Sum(ys, Equal(x))
  }

  /** What one observation adds to the tie correction: over a group of t equal values these make t^3 - t. */
  function TieShare(ys: seq<int>): int -> int {
    x => Ties(x, ys) * Ties(x, ys) - 1
  }

  function TieSum(ys: seq<int>): int {
    Sum(ys, TieShare(ys))
  }

  // ---------------------------------------------------------------- algebra of Score

  lemma AgainstSnoc(x: int, ys: seq<int>, y: int)
    ensures Against(x, ys + [y]) == Against(x, ys) + Score(x, y)
  {
    SumSnoc(ys, y, ScoreOf(x));
  }

  lemma {:induction false} AgainstRange(x: int, ys: seq<int>)
    ensures 0 <= Against(x, ys) <= 2 * |ys|
  {
    if ys != [] { AgainstRange(x, ys[..|ys| - 1]); }
  }

  /** Adding y to the right column adds what every x scores against y. */
  lemma {:induction false} PairsRight(xs: seq<int>, ys: seq<int>, y: int)
    ensures Pairs2(xs, ys + [y]) == Pairs2(xs, ys) + Sum(xs, x => Score(x, y))
  {
    SumAdd(xs, x => Against(x, ys), x => Score(x, y), x => Against(x, ys + [y])) by {
      forall i | 0 <= i < |xs| ensures Against(xs[i], ys + [y]) == Against(xs[i], ys) + Score(xs[i], y) {
        AgainstSnoc(xs[i], ys, y);
      }
    }
  }

  lemma {:induction false} PairsBothWays(xs: seq<int>, ys: seq<int>)
    ensures Pairs2(xs, ys) + Pairs2(ys, xs) == 2 * |xs| * |ys|
  {
    if ys == [] {
      SumConst(xs, x => Against(x, ys), 0);
    } else {
      var n := |ys| - 1;
      var y := ys[n];
      assert ys == ys[..n] + [y];
      PairsBothWays(xs, ys[..n]);
      PairsRight(xs, ys[..n], y);
      SumSnoc(ys[..n], y, x => Against(x, xs));
      SumAdd(xs, x => Score(x, y), ScoreOf(y), x => 2);
      SumConst(xs, x => 2, 2);
    }
  }

  lemma PairsSelf(xs: seq<int>)
    ensures Pairs2(xs, xs) == |xs| * |xs|
  {
    PairsBothWays(xs, xs);
  }

  lemma {:induction false} PairsNonNegative(xs: seq<int>, ys: seq<int>)
    ensures Pairs2(xs, ys) >= 0
  {
    SumConst(xs, x => 0, 0);
    forall i | 0 <= i < |xs| ensures Against(xs[i], ys) >= 0 { AgainstRange(xs[i], ys); }
    SumLe(xs, x => 0, x => Against(x, ys));
  }

  lemma PairsRange(xs: seq<int>, ys: seq<int>)
    ensures 0 <= Pairs2(xs, ys) <= 2 * |xs| * |ys|
  {
    PairsNonNegative(xs, ys);
    PairsNonNegative(ys, xs);
    PairsBothWays(xs, ys);
  }

  lemma PairsConcat(xs: seq<int>, ys: seq<int>, zs: seq<int>)
    ensures Pairs2(xs, ys + zs) == Pairs2(xs, ys) + Pairs2(xs, zs)
  {
    SumAdd(xs, x => Against(x, ys), x => Against(x, zs), x => Against(x, ys + zs)) by {
      forall i | 0 <= i < |xs| ensures Against(xs[i], ys + zs) == Against(xs[i], ys) + Against(xs[i], zs) {
        SumConcat(ys, zs, ScoreOf(xs[i]));
      }
    }
  }

  // ---------------------------------------------------------------- ranks in a sorted pool

  function Values(s: seq<Obs>): (vs: seq<int>)
    ensures |vs| == |s| && forall i :: 0 <= i < |s| ==> vs[i] == s[i].v
  {
    Map(s, (o: Obs) => o.v)
  }

  /** vs[i..j] is exactly one group of equal values of the sorted vs. */
  predicate IsGroup(vs: seq<int>, i: nat, j: nat) {
    && i < j <= |vs|
    && (forall k :: i <= k < j ==> vs[k] == vs[i])
    && (i > 0 ==> vs[i - 1] < vs[i])
    && (j < |vs| ==> vs[i] < vs[j])
  }

  /** A sum that is constant below, inside and above a group. */
  lemma ThreeParts(lo: seq<int>, mid: seq<int>, hi: seq<int>, f: int -> int, c: int, d: int, e: int)
    requires forall k :: 0 <= k < |lo| ==> f(lo[k]) == c
    requires forall k :: 0 <= k < |mid| ==> f(mid[k]) == d
    requires forall k :: 0 <= k < |hi| ==> f(hi[k]) == e
    ensures Sum(lo + (mid + hi), f) == c * |lo| + d * |mid| + e * |hi|
  {
    SumConcat(lo, mid + hi, f);
    SumConcat(mid, hi, f);
    SumConst(lo, f, c);
    SumConst(mid, f, d);
    SumConst(hi, f, e);
  }

  lemma AroundGroup(vs: seq<int>, i: nat, j: nat)
    requires Ascending(vs) && IsGroup(vs, i, j)
    ensures forall k :: 0 <= k < i ==> vs[k] < vs[i]
    ensures forall k :: j <= k < |vs| ==> vs[k] > vs[i]
  {
    forall k | 0 <= k < i ensures vs[k] < vs[i] { assert vs[k] <= vs[i - 1]; }
    forall k | j <= k < |vs| ensures vs[k] > vs[i] { assert vs[k] >= vs[j]; }
  }

  lemma SplitAround(vs: seq<int>, i: nat, j: nat, x: int)
    requires i < j <= |vs|
    requires forall k :: 0 <= k < i ==> vs[k] < x
    requires forall k :: i <= k < j ==> vs[k] == x
    requires forall k :: j <= k < |vs| ==> vs[k] > x
    ensures Against(x, vs) == i + j && Ties(x, vs) == j - i
  {
    var lo, mid, hi := vs[..i], vs[i..j], vs[j..];
    assert vs == lo + (mid + hi);
    ThreeParts(lo, mid, hi, ScoreOf(x), 2, 1, 0);
    ThreeParts(lo, mid, hi, Equal(x), 0, 1, 0);
  }

  /** Positions i+1..j averaged, doubled: what every member of a group scores against the pool, plus one. */
  lemma GroupRank(vs: seq<int>, i: nat, j: nat)
    requires Ascending(vs) && IsGroup(vs, i, j)
    ensures Against(vs[i], vs) + 1 == i + j + 1
    ensures Ties(vs[i], vs) == j - i
  {
    AroundGroup(vs, i, j);
    SplitAround(vs, i, j, vs[i]);
  }

  function Cubic(t: int): int {
    t * t * t - t
  }

  lemma CubicFactors(t: int)
    ensures (t * t - 1) * t == Cubic(t)
  {}

  lemma SameShare(vs: seq<int>, group: seq<int>, x: int, t: nat)
    requires |group| == t && forall k :: 0 <= k < t ==> group[k] == x
    requires Ties(x, vs) == t
    ensures Sum(group, TieShare(vs)) == Cubic(t)
  {
    SumConst(group, TieShare(vs), t * t - 1);
    CubicFactors(t);
  }

  lemma JoinPrefix(vs: seq<int>, i: nat, j: nat, f: int -> int)
    requires i <= j <= |vs|
    ensures Sum(vs[..j], f) == Sum(vs[..i], f) + Sum(vs[i..j], f)
  {
    assert vs[..j] == vs[..i] + vs[i..j];
    SumConcat(vs[..i], vs[i..j], f);
  }

  /** One whole group adds t^3 - t to the tie sum of the prefix. */
  lemma GroupTies(vs: seq<int>, i: nat, j: nat)
    requires Ascending(vs) && IsGroup(vs, i, j)
    ensures Sum(vs[..j], TieShare(vs)) == Sum(vs[..i], TieShare(vs)) + Cubic(j - i)
  {
    GroupRank(vs, i, j);
    SameShare(vs, vs[i..j], vs[i], j - i);
    JoinPrefix(vs, i, j, TieShare(vs));
  }

  // ---------------------------------------------------------------- rank sum of group 0

  /** Doubled rank of an observation of group 0; nothing for the other group. */
  function RankShare(pool: seq<int>): Obs -> int {
    (o: Obs) => if o.g == 0 then Against(o.v, pool) + 1 else 0
  }

  function Tagged(xs: seq<int>, g: int): (s: seq<Obs>)
    ensures |s| == |xs| && forall i :: 0 <= i < |s| ==> s[i] == Obs(xs[i], g)
  {
    Map(xs, (x: int) => Obs(x, g))
  }

  lemma ValuesConcat(s: seq<Obs>, t: seq<Obs>)
    ensures Values(s + t) == Values(s) + Values(t)
  {}

  lemma {:induction false} CountIsSum(s: seq<Obs>, x: int)
    ensures multiset(Values(s))[x] == Sum(s, (o: Obs) => if o.v == x then 1 else 0)
  {
    if s != [] {
      var n := |s| - 1;
      CountIsSum(s[..n], x);
      assert Values(s) == Values(s[..n]) + [s[n].v];
    }
  }

  lemma {:induction false} ValuesPerm(s: seq<Obs>, t: seq<Obs>)
    requires multiset(s) == multiset(t)
    ensures multiset(Values(s)) == multiset(Values(t))
  {
    forall x ensures multiset(Values(s))[x] == multiset(Values(t))[x] {
      CountIsSum(s, x);
      CountIsSum(t, x);
      SumPerm(s, t, (o: Obs) => if o.v == x then 1 else 0);
    }
  }

  /** Against and Ties only depend on the multiset of the pool. */
  lemma PoolPerm(x: int, p: seq<int>, q: seq<int>)
    requires multiset(p) == multiset(q)
    ensures Against(x, p) == Against(x, q) && Ties(x, p) == Ties(x, q)
  {
    SumPerm(p, q, ScoreOf(x));
    SumPerm(p, q, Equal(x));
  }

  /** In any arrangement s of the two samples, the doubled ranks of group 0 sum to na^2 + na plus the pairwise score. */
  lemma RankSumIsPairs(a: seq<int>, w: seq<int>, s: seq<Obs>)
    requires multiset(s) == multiset(Tagged(a, 0) + Tagged(w, 1))
    ensures Sum(s, RankShare(Values(s))) == |a| * |a| + |a| + Pairs2(a, w)
  {
    var all := Tagged(a, 0) + Tagged(w, 1);
    var pool := Values(s);
    ValuesPerm(s, all);
    ValuesConcat(Tagged(a, 0), Tagged(w, 1));
    assert Values(Tagged(a, 0)) == a && Values(Tagged(w, 1)) == w;
    SumPerm(s, all, RankShare(pool));
    SumConcat(Tagged(a, 0), Tagged(w, 1), RankShare(pool));
    SumConst(Tagged(w, 1), RankShare(pool), 0);
    SumMap(a, x => Obs(x, 0), RankShare(pool), x => Against(x, a + w) + 1) by {
      forall i | 0 <= i < |a| ensures Against(a[i], pool) == Against(a[i], a + w) { PoolPerm(a[i], pool, a + w); }
    }
    assert Tagged(a, 0) == Map(a, x => Obs(x, 0));
    SumAdd(a, x => Against(x, a + w), x => 1, x => Against(x, a + w) + 1);
    SumConst(a, x => 1, 1);
    PairsConcat(a, a, w);
    PairsSelf(a);
  }

  // ---------------------------------------------------------------- tie correction

  lemma {:induction false} TiesRange(x: int, ys: seq<int>)
    ensures 0 <= Ties(x, ys) <= |ys|
    ensures Ties(x, ys) == |ys| <==> forall i :: 0 <= i < |ys| ==> ys[i] == x
    ensures x in ys ==> Ties(x, ys) >= 1
  {
    if ys != [] {
      var t := ys[..|ys| - 1];
      TiesRange(x, t);
      assert ys == t + [ys[|ys| - 1]];
    }
  }

  predicate AllTied(ys: seq<int>) {
    forall i, j :: 0 <= i < |ys| && 0 <= j < |ys| ==> ys[i] == ys[j]
  }

  lemma SquareLe(t: int, n: int)
    requires 0 <= t <= n
    ensures t * t <= n * n
    ensures t * t == n * n <==> t == n
  {}

  lemma TieShareRange(ys: seq<int>, i: nat)
    requires i < |ys|
    ensures 0 <= TieShare(ys)(ys[i]) <= |ys| * |ys| - 1
    ensures TieShare(ys)(ys[i]) == |ys| * |ys| - 1 <==> forall j :: 0 <= j < |ys| ==> ys[j] == ys[i]
  {
    TiesRange(ys[i], ys);
    SquareLe(Ties(ys[i], ys), |ys|);
    SquareLe(1, Ties(ys[i], ys));
  }

  /** The tie sum lies in [0, n^3 - n] and reaches the top exactly when every value is tied. */
  lemma TieSumRange(ys: seq<int>)
    ensures 0 <= TieSum(ys) <= Cubic(|ys|)
    ensures TieSum(ys) == Cubic(|ys|) <==> AllTied(ys)
  {
    var n := |ys|;
    var top := n * n - 1;
    forall i | 0 <= i < n
      ensures 0 <= TieShare(ys)(ys[i]) <= top
      ensures TieShare(ys)(ys[i]) == top <==> forall j :: 0 <= j < n ==> ys[j] == ys[i]
    {
      TieShareRange(ys, i);
    }
    SumConst(ys, x => top, top);
    SumConst(ys, x => 0, 0);
    SumLe(ys, x => 0, TieShare(ys));
    SumLe(ys, TieShare(ys), x => top);
    CubicFactors(n);
  }

  lemma {:induction false} TieSumPerm(p: seq<int>, q: seq<int>)
    requires multiset(p) == multiset(q)
    ensures TieSum(p) == TieSum(q)
  {
    SumPerm(p, q, TieShare(p));
    forall i | 0 <= i < |q| ensures TieShare(p)(q[i]) == TieShare(q)(q[i]) { PoolPerm(q[i], p, q); }
    SumEq(q, TieShare(p), TieShare(q));
  }

  // ---------------------------------------------------------------- the spread of the ranks

  /** How far an observation's doubled rank lies from the middle, squared. */
  function RankDeviation(ys: seq<int>): int -> int {
    x => (Against(x, ys) - |ys|) * (Against(x, ys) - |ys|)
  }

  /** The pooled average ranks' squared deviations from their mean, times four. */
  function RankSpread(ys: seq<int>): int {
    Sum(ys, RankDeviation(ys))
  }

  function Cube(x: int): int {
    x * x * x
  }

  lemma CubeOfSum(m: int, t: int)
    ensures Cube(m + t) == m * m * m + 3 * (m * m * t) + 3 * (m * t * t) + t * t * t
  {
    assert (m + t) * (m + t) == m * m + 2 * (m * t) + t * t;
    assert (m * m + 2 * (m * t) + t * t) * (m + t) ==
           m * m * m + m * m * t + 2 * (m * t) * m + 2 * (m * t) * t + t * t * m + t * t * t;
  }

  lemma CubeDifference(m: int, t: int)
    ensures Cube(m + t) - Cube(m - t) == 6 * (m * m * t) + 2 * (t * t * t)
  {
    CubeOfSum(m, t);
    CubeOfSum(m, -t);
  }

  /** What one group adds to both sums is a difference of cubes, so the groups telescope. */
  lemma GroupCubes(i: int, j: int, n: int)
    ensures 6 * ((i + j - n) * (i + j - n) * (j - i)) + 2 * Cubic(j - i) ==
            Cube(2 * j - n) - Cube(2 * i - n) - 2 * (j - i)
  {
    var t, m := j - i, i + j - n;
    assert 2 * j - n == m + t && 2 * i - n == m - t;
    CubeDifference(m, t);
  }

  lemma GroupDeviations(vs: seq<int>, i: nat, j: nat)
    requires Ascending(vs) && IsGroup(vs, i, j)
    ensures Sum(vs[..j], RankDeviation(vs)) ==
            Sum(vs[..i], RankDeviation(vs)) + (i + j - |vs|) * (i + j - |vs|) * (j - i)
  {
    GroupRank(vs, i, j);
    var c := (i + j - |vs|) * (i + j - |vs|);
    forall k | i <= k < j ensures RankDeviation(vs)(vs[k]) == c { assert vs[k] == vs[i]; }
    SumConst(vs[i..j], RankDeviation(vs), c);
    JoinPrefix(vs, i, j, RankDeviation(vs));
  }

  /** Everything before i is smaller than everything from i on. */
  predicate Boundary(vs: seq<int>, i: nat) {
    i <= |vs| && (0 < i < |vs| ==> vs[i - 1] < vs[i])
  }

  /** The group that ends at a boundary. */
  lemma LastGroup(vs: seq<int>, j: nat) returns (i: nat)
    requires Ascending(vs) && Boundary(vs, j) && j > 0
    ensures IsGroup(vs, i, j) && Boundary(vs, i)
  {
    i := j - 1;
    while i > 0 && vs[i - 1] == vs[i]
      invariant i < j && forall k :: i <= k < j ==> vs[k] == vs[i]
    {
      i := i - 1;
    }
    if i > 0 { assert vs[i - 1] <= vs[i]; }
    if j < |vs| { assert vs[j - 1] < vs[j]; }
  }

  lemma {:induction false} PrefixSpread(vs: seq<int>, j: nat)
    requires Ascending(vs) && Boundary(vs, j)
    ensures 6 * Sum(vs[..j], RankDeviation(vs)) + 2 * Sum(vs[..j], TieShare(vs)) ==
            Cube(2 * j - |vs|) - Cube(-|vs|) - 2 * j
  {
    if j > 0 {
      var i := LastGroup(vs, j);
      PrefixSpread(vs, i);
      GroupDeviations(vs, i, j);
      GroupTies(vs, i, j);
      GroupCubes(i, j, |vs|);
    }
  }

  lemma RankSpreadPerm(p: seq<int>, q: seq<int>)
    requires multiset(p) == multiset(q)
    ensures RankSpread(p) == RankSpread(q)
  {
    assert |multiset(p)| == |p| && |multiset(q)| == |q|;
    SumPerm(p, q, RankDeviation(p));
    forall i | 0 <= i < |q| ensures RankDeviation(p)(q[i]) == RankDeviation(q)(q[i]) { PoolPerm(q[i], p, q); }
    SumEq(q, RankDeviation(p), RankDeviation(q));
  }

  lemma WholeSpread(vs: seq<int>)
    requires Ascending(vs)
    ensures 3 * RankSpread(vs) == Cubic(|vs|) - TieSum(vs)
  {
    var n := |vs|;
    PrefixSpread(vs, n);
    assert vs[..n] == vs;
    assert Cube(2 * n - n) == n * n * n && Cube(-n) == -(n * n * n);
  }

  /** The law of the tie correction: ties take from the ranks' spread exactly what they add to the tie sum. */
  lemma TiesShrinkSpread(ys: seq<int>)
    ensures 3 * RankSpread(ys) == Cubic(|ys|) - TieSum(ys)
  {
    var vs := SortInts(ys);
    WholeSpread(vs);
    RankSpreadPerm(vs, ys);
    TieSumPerm(vs, ys);
  }

  // ---------------------------------------------------------------- the loops

  /** What the rank loop leaves for the first i observations of the sorted pool. */
  ghost predicate Ranked(vs: seq<int>, ranks: seq<real>, i: nat)
    requires i <= |vs| == |ranks|
  {
    forall k :: 0 <= k < i ==> 2.0 * ranks[k] == (Against(vs[k], vs) + 1) as real
  }

  /** The scan that finds where the group starting at i ends. */
  method GroupEnd(all: array<Obs>, i: nat) returns (j: nat)
    requires i < all.Length && Ascending(Values(all[..])) && Boundary(Values(all[..]), i)
    ensures IsGroup(Values(all[..]), i, j) && Boundary(Values(all[..]), j)
  {
    j := i;
    while j < all.Length && all[j].v == all[i].v
      invariant i <= j <= all.Length
      invariant forall k :: i <= k < j ==> all[k].v == all[i].v
    {
      j := j + 1;
    }
    ghost var vs := Values(all[..]);
    assert forall k :: 0 <= k < |vs| ==> vs[k] == all[k].v;
    assert i < j;
    if j < |vs| { assert vs[i] <= vs[j]; }
  }

  /** Gives every member of the group i..j the group's average rank. */
  method FillGroup(ghost vs: seq<int>, ranks: array<real>, i: nat, j: nat)
    requires |vs| == ranks.Length && Ascending(vs) && IsGroup(vs, i, j) && Ranked(vs, ranks[..], i)
    modifies ranks
    ensures Ranked(vs, ranks[..], j)
  {
    var avg := (i + j + 1) as real / 2.0;
    GroupRank(vs, i, j);
    for k := i to j
      invariant Ranked(vs, ranks[..], k)
    {
      ranks[k] := avg;
      assert vs[k] == vs[i];
    }
  }

  /** t^3 - t for a group of t > 1 ties. */
  method TieTerm(ghost vs: seq<int>, i: nat, j: nat) returns (c: int)
    requires Ascending(vs) && IsGroup(vs, i, j)
    ensures Sum(vs[..j], TieShare(vs)) == Sum(vs[..i], TieShare(vs)) + c
  {
    var t := j - i;
    c := if t > 1 then t * t * t - t else 0;
    GroupTies(vs, i, j);
  }

  /** Averages the ranks of every group of ties and accumulates the tie correction. */
  method RankAll(all: array<Obs>) returns (ranks: array<real>, tieCorrection: int)
    requires Ascending(Values(all[..]))
    ensures fresh(ranks) && ranks.Length == all.Length && Ranked(Values(all[..]), ranks[..], all.Length)
    ensures tieCorrection == TieSum(Values(all[..]))
  {
    ghost var vs := Values(all[..]);
    ranks := new real[all.Length];
    tieCorrection := 0;
    var i := 0;
    while i < all.Length
      invariant i <= all.Length && Boundary(vs, i) && Values(all[..]) == vs
      invariant Ranked(vs, ranks[..], i)
      invariant tieCorrection == Sum(vs[..i], TieShare(vs))
    {
      var j := GroupEnd(all, i);
      FillGroup(vs, ranks, i, j);
      var c := TieTerm(vs, i, j);
      tieCorrection := tieCorrection + c;
      i := j;
    }
    assert vs[..i] == vs;
  }

  /** Adds the ranks of group 0. */
  method RankSum(all: array<Obs>, ranks: array<real>) returns (rankSumA: real)
    requires ranks.Length == all.Length && Ranked(Values(all[..]), ranks[..], all.Length)
    ensures 2.0 * rankSumA == Sum(all[..], RankShare(Values(all[..]))) as real
  {
    rankSumA := 0.0;
    ghost var f := RankShare(Values(all[..]));
    for i := 0 to all.Length
      invariant 2.0 * rankSumA == Sum(all[..i], f) as real
    {
      SumTake(all[..], i, f);
      assert all[..][..i + 1] == all[..i + 1] && all[..][..i] == all[..i];
      assert 2.0 * ranks[..][i] == (Against(Values(all[..])[i], Values(all[..])) + 1) as real;
      if all[i].g == 0 { rankSumA := rankSumA + ranks[i]; }
    }
    assert all[..all.Length] == all[..];
  }

  /** Concatenates both samples, tagged, and sorts them by value. */
  method Pool(a: seq<int>, w: seq<int>) returns (all: array<Obs>)
    ensures fresh(all) && all.Length == |a| + |w|
    ensures multiset(all[..]) == multiset(Tagged(a, 0) + Tagged(w, 1)) && Ascending(Values(all[..]))
  {
    var both := Tagged(a, 0) + Tagged(w, 1);
    all := new Obs[|both|](i requires 0 <= i < |both| => both[i]);
    assert all[..] == both;
    SortSlice(all, (o: Obs) => o.v as real);
  }

  datatype UTest = UTest(u: real, uA: real, varU: real, degenerate: bool)

  /** n * (n - 1), over the reals. */
  function OrderedPairs(n: nat): real {
    n as real * (n as real - 1.0)
  }

  lemma SomePairs(n: nat)
    requires n >= 2
    ensures OrderedPairs(n) > 0.0
  {}

  /** The factor of the variance that ties shrink. */
  function Spread(n: nat, tie: int): real
    requires n >= 2
  {
    (n as real + 1.0) - tie as real / OrderedPairs(n)
  }

  /** The tie-corrected variance of U. */
  function VarU(na: nat, nw: nat, tie: int): real
    requires na > 0 && nw > 0
  {
    na as real * nw as real / 12.0 * Spread(na + nw, tie)
  }

  lemma DivSign(x: real, d: real)
    requires d > 0.0
    ensures x / d >= 0.0 <==> x >= 0.0
    ensures x / d == 0.0 <==> x == 0.0
  {
    assert x == (x / d) * d;
  }

  lemma DivCancel(x: real, d: real)
    requires d > 0.0
    ensures (x * d) / d == x
  {}

  lemma DivSub(p: real, t: real, d: real)
    requires d > 0.0
    ensures p - t / d == (p * d - t) / d
  {
    var q := t / d;
    assert t == q * d;
    assert p * d - t == (p - q) * d;
    DivCancel(p - q, d);
  }

  lemma CubicReal(n: nat)
    ensures Cubic(n) as real == (n as real + 1.0) * (n as real * (n as real - 1.0))
  {
    assert Cubic(n) == (n + 1) * (n * (n - 1));
    assert (n * (n - 1)) as real == n as real * (n as real - 1.0);
  }

  lemma CubicIsPairs(n: nat)
    ensures Cubic(n) as real == (n as real + 1.0) * OrderedPairs(n)
  {
    CubicReal(n);
  }

  lemma SpreadIs(n: nat, tie: int, d: real)
    requires n >= 2 && d == OrderedPairs(n)
    ensures d > 0.0 && Spread(n, tie) == (Cubic(n) as real - tie as real) / d
  {
    SomePairs(n);
    CubicIsPairs(n);
    DivSub(n as real + 1.0, tie as real, d);
  }

  lemma SignOfQuotient(y: real, top: int, tie: int, d: real)
    requires d > 0.0 && tie <= top && y == (top as real - tie as real) / d
    ensures y >= 0.0
    ensures y <= 0.0 <==> tie == top
  {
    DivSign(top as real - tie as real, d);
  }

  lemma SpreadSign(n: nat, tie: int)
    requires n >= 2 && tie <= Cubic(n)
    ensures Spread(n, tie) >= 0.0
    ensures Spread(n, tie) <= 0.0 <==> tie == Cubic(n)
  {
    var d := OrderedPairs(n);
    SpreadIs(n, tie, d);
    SignOfQuotient(Spread(n, tie), Cubic(n), tie, d);
  }

  lemma PairsPositive(na: nat, nw: nat)
    requires na > 0 && nw > 0
    ensures na as real * nw as real / 12.0 > 0.0
  {
    assert na as real * nw as real > 0.0;
  }

  lemma ProductSign(c: real, y: real)
    requires c > 0.0
    ensures c * y >= 0.0 <==> y >= 0.0
    ensures c * y <= 0.0 <==> y <= 0.0
  {}

  /** varU is never negative, and zero exactly at the largest tie sum. */
  lemma VarUSign(na: nat, nw: nat, tie: int)
    requires na > 0 && nw > 0 && tie <= Cubic(na + nw)
    ensures VarU(na, nw, tie) >= 0.0
    ensures VarU(na, nw, tie) <= 0.0 <==> tie == Cubic(na + nw)
  {
    SpreadSign(na + nw, tie);
    PairsPositive(na, nw);
    ProductSign(na as real * nw as real / 12.0, Spread(na + nw, tie));
  }

  lemma FromSpread(a: real, y: real, d: real, v: real, top: int, tie: int, spread: int)
    requires d > 0.0 && y == (top as real - tie as real) / d && 3 * spread == top - tie && v == a / 12.0 * y
    ensures 4.0 * d * v == a * spread as real
  {
    assert y * d == 3.0 * spread as real;
    assert 4.0 * d * (a / 12.0 * y) == a / 3.0 * (y * d);
    assert a / 3.0 * (3.0 * spread as real) == a * spread as real;
  }

  /** v is na * nw / (n * (n - 1)) times a quarter of the spread. */
  predicate IsRankVariance(v: real, na: nat, nw: nat, spread: int) {
    4.0 * OrderedPairs(na + nw) * v == na as real * nw as real * spread as real
  }

  lemma RankVarianceIs(v: real, na: nat, nw: nat, spread: int, a: real, d: real)
    requires a == na as real * nw as real && d == OrderedPairs(na + nw)
    requires 4.0 * d * v == a * spread as real
    ensures IsRankVariance(v, na, nw, spread)
  {}

  lemma VarUFromSpread(na: nat, nw: nat, tie: int, spread: int)
    requires na > 0 && nw > 0 && 3 * spread == Cubic(na + nw) - tie
    ensures IsRankVariance(VarU(na, nw, tie), na, nw, spread)
  {
    var n := na + nw;
    var a, d, v := na as real * nw as real, OrderedPairs(n), VarU(na, nw, tie);
    SpreadIs(n, tie, d);
    FromSpread(a, Spread(n, tie), d, v, Cubic(n), tie, spread);
    RankVarianceIs(v, na, nw, spread, a, d);
  }

  /** varU is na * nw / (n * (n - 1)) times the pooled average ranks' squared deviations from their mean. */
  lemma VarUIsRankVariance(na: nat, nw: nat, pool: seq<int>)
    requires na > 0 && nw > 0 && |pool| == na + nw
    ensures IsRankVariance(VarU(na, nw, TieSum(pool)), na, nw, RankSpread(pool))
  {
    var tie, spread := TieSum(pool), RankSpread(pool);
    TiesShrinkSpread(pool);
    VarUFromSpread(na, nw, tie, spread);
  }

  lemma SubtractMinimum(na: nat, pairs2: int, rankSumA: real, uA: real)
    requires 2.0 * rankSumA == (na * na + na + pairs2) as real
    requires uA == rankSumA - (na * (na + 1)) as real / 2.0
    ensures 2.0 * uA == pairs2 as real
  {
    assert na * (na + 1) == na * na + na;
  }

  /** uA from the rank sum, and the smaller of the two one-sided statistics. */
  method Statistic(na: nat, nw: nat, ghost pairs2: int, rankSumA: real) returns (u: real, uA: real)
    requires 0 <= pairs2 <= 2 * na * nw && 2.0 * rankSumA == (na * na + na + pairs2) as real
    ensures 2.0 * uA == pairs2 as real
    ensures 0.0 <= u <= (na * nw) as real / 2.0 && (u == uA || u == (na * nw) as real - uA)
  {
    uA := rankSumA - (na * (na + 1)) as real / 2.0;
    SubtractMinimum(na, pairs2, rankSumA, uA);
    var pairs := na * nw;
    assert pairs2 <= 2 * pairs;
    u := if uA <= pairs as real - uA then uA else pairs as real - uA;
  }

  /** The variance, and the exit taken when it is not positive: exactly when all values are tied. */
  method Variance(a: seq<int>, w: seq<int>, tie: int) returns (varU: real)
    requires a != [] && w != [] && tie == TieSum(a + w)
    ensures varU == VarU(|a|, |w|, TieSum(a + w)) && varU >= 0.0
    ensures IsRankVariance(varU, |a|, |w|, RankSpread(a + w))
    ensures varU <= 0.0 <==> AllTied(a + w)
  {
    TieSumRange(a + w);
    VarUSign(|a|, |w|, tie);
    VarUIsRankVariance(|a|, |w|, a + w);
    varU := VarU(|a|, |w|, tie);
  }

  lemma TiesOfPool(a: seq<int>, w: seq<int>, s: seq<Obs>)
    requires multiset(s) == multiset(Tagged(a, 0) + Tagged(w, 1))
    ensures TieSum(Values(s)) == TieSum(a + w)
  {
    ValuesPerm(s, Tagged(a, 0) + Tagged(w, 1));
    ValuesConcat(Tagged(a, 0), Tagged(w, 1));
    assert Values(Tagged(a, 0)) == a && Values(Tagged(w, 1)) == w;
    TieSumPerm(Values(s), a + w);
  }

  /** mannWhitney up to the variance: U is pairwise wins plus half the ties, whatever order the sort gives ties. */
  method MannWhitney(a: seq<int>, w: seq<int>) returns (r: UTest)
    ensures a == [] || w == [] ==> r == UTest(0.0, 0.0, 0.0, true)
    ensures a != [] && w != [] ==>
      && 2.0 * r.uA == Pairs2(a, w) as real
      && 0.0 <= r.u <= (|a| * |w|) as real / 2.0
      && (r.u == r.uA || r.u == (|a| * |w|) as real - r.uA)
      && IsRankVariance(r.varU, |a|, |w|, RankSpread(a + w)) && r.varU >= 0.0
    ensures r.degenerate <==> a == [] || w == [] || AllTied(a + w)
  {
    if a == [] || w == [] { return UTest(0.0, 0.0, 0.0, true); }
    var all := Pool(a, w);
    var ranks, tieCorrection := RankAll(all);
    var rankSumA := RankSum(all, ranks);
    RankSumIsPairs(a, w, all[..]);
    PairsRange(a, w);
    var u, uA := Statistic(|a|, |w|, Pairs2(a, w), rankSumA);
    TiesOfPool(a, w, all[..]);
    var varU := Variance(a, w, tieCorrection);
    r := UTest(u, uA, varU, varU <= 0.0);
  }
}
