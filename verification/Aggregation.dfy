/**
 The CPU aggregation of cmd/loadreport/input.go: readings grouped by container and by
 timestamp. CPU readings are integers in a fixed unit; averages are exact reals.
 */
module Aggregation {
  import opened Ranging
  import opened Sums
  import opened Sorting

  datatype Reading = Reading(at: int, container: string, cpu: int)

  datatype Row = Row(name: string, sum: int, peak: int, n: nat)

  // ---------------------------------------------------------------- reference definitions

  const Cpu: Reading -> int := (r: Reading) => r.cpu
  const One: Reading -> int := (r: Reading) => 1
  const ContainerOf: Reading -> string := (r: Reading) => r.container
  const TimeOf: Reading -> int := (r: Reading) => r.at

  /** CPU of one container, CPU at one time, readings of one container. */
  function OfContainer(c: string): Reading -> int { Group(ContainerOf, Cpu, c) }
  function AtTime(t: int): Reading -> int { Group(TimeOf, Cpu, t) }
  function InContainer(c: string): Reading -> int { Group(ContainerOf, One, c) }

  /** The readings of one container, in order. */
  function Vals(rs: seq<Reading>, c: string): seq<int> {
    if rs == [] then []
    else
      var last := rs[|rs| - 1];
      Vals(rs[..|rs| - 1], c) + (if last.container == c then [last.cpu] else [])
  }

  /** The largest value, but never below the zero it starts from. */
  function Peak(vs: seq<int>): int {
    if vs == [] then 0
    else
      var p := Peak(vs[..|vs| - 1]);
      if vs[|vs| - 1] > p then vs[|vs| - 1] else p
  }

  const Self: int -> int := x => x

  lemma {:induction false} PeakTops(vs: seq<int>)
    ensures Peak(vs) >= 0 && forall i :: 0 <= i < |vs| ==> vs[i] <= Peak(vs)
    ensures Peak(vs) == 0 || Peak(vs) in vs
  {
    if vs != [] { PeakTops(vs[..|vs| - 1]); }
  }

  lemma {:induction false} ValsSums(rs: seq<Reading>, c: string)
    ensures Sum(Vals(rs, c), Self) == Sum(rs, OfContainer(c))
    ensures |Vals(rs, c)| == Sum(rs, InContainer(c))
  {
    if rs != [] {
      var t, last := rs[..|rs| - 1], rs[|rs| - 1];
      ValsSums(t, c);
      if last.container == c { SumSnoc(Vals(t, c), last.cpu, Self); }
      else { assert Vals(rs, c) == Vals(t, c); }
    }
  }

  lemma {:induction false} ValsHas(rs: seq<Reading>, c: string, i: nat)
    requires i < |rs| && rs[i].container == c
    ensures rs[i].cpu in Vals(rs, c)
  {
    if i < |rs| - 1 { ValsHas(rs[..|rs| - 1], c, i); }
  }

  // ---------------------------------------------------------------- the rows

  predicate RowOk(rs: seq<Reading>, r: Row) {
    && r.sum == Sum(rs, OfContainer(r.name)) && r.n == Sum(rs, InContainer(r.name)) && r.n > 0
    && r.peak == Peak(Vals(rs, r.name))
  }

  function Names(rows: seq<Row>): (ns: seq<string>)
    ensures |ns| == |rows| && forall i :: 0 <= i < |rows| ==> ns[i] == rows[i].name
  {
    Map(rows, (r: Row) => r.name)
  }

  /** One correct row for every container that occurs. */
  ghost predicate RowsOk(rs: seq<Reading>, rows: seq<Row>) {
    && (forall i :: 0 <= i < |rows| ==> RowOk(rs, rows[i]))
    && Distinct(Names(rows))
    && (forall i :: 0 <= i < |rs| ==> rs[i].container in Names(rows))
  }

  ghost predicate TimesOk(rs: seq<Reading>, times: seq<int>) {
    && Distinct(times)
    && (forall i :: 0 <= i < |rs| ==> rs[i].at in times)
    && (forall t :: t in times ==> exists i :: 0 <= i < |rs| && rs[i].at == t)
  }

  const RowSum: Row -> int := (r: Row) => r.sum
  const RowPeak: Row -> int := (r: Row) => r.peak

  /** Both groupings account for exactly the same CPU: per-timestamp sums and per-container averages times counts. */
  lemma TwoWayTotal(rs: seq<Reading>, rows: seq<Row>, times: seq<int>)
    requires RowsOk(rs, rows) && TimesOk(rs, times)
    ensures Sum(times, GroupSum(rs, TimeOf, Cpu)) == Sum(rows, RowSum) == Sum(rs, Cpu)
  {
    GroupTotal(rs, times, TimeOf, Cpu);
    GroupTotal(rs, Names(rows), ContainerOf, Cpu);
    SumMap(rows, (r: Row) => r.name, GroupSum(rs, ContainerOf, Cpu), RowSum);
    assert Names(rows) == Map(rows, (r: Row) => r.name);
  }

  // ---------------------------------------------------------------- peaks

  /** No container reports twice at one timestamp. */
  ghost predicate OnePerCell(rs: seq<Reading>) {
    forall i, j :: 0 <= i < j < |rs| ==> !(rs[i].container == rs[j].container && rs[i].at == rs[j].at)
  }

  function Cell(c: string, t: int): Reading -> int { Group(ContainerOf, AtTime(t), c) }
  function CellCount(c: string, t: int): Reading -> int { Group(TimeOf, InContainer(c), t) }

  ghost predicate Reports(rs: seq<Reading>, c: string, t: int) {
    exists i :: 0 <= i < |rs| && rs[i].container == c && rs[i].at == t
  }

  /** A cell with at most one reading is empty or is that reading. */
  lemma CellIsOneReading(rs: seq<Reading>, c: string, t: int)
    requires OnePerCell(rs)
    ensures Sum(rs, Cell(c, t)) <= Peak(Vals(rs, c))
    ensures Sum(rs, CellCount(c, t)) ==
      if Reports(rs, c, t) then 1 else 0
  {
    PeakTops(Vals(rs, c));
    if Reports(rs, c, t) {
      var k :| 0 <= k < |rs| && rs[k].container == c && rs[k].at == t;
      forall i | 0 <= i < |rs| && i != k ensures !(rs[i].container == c && rs[i].at == t) {
        if i < k { assert !(rs[i].container == rs[k].container && rs[i].at == rs[k].at); }
        else { assert !(rs[k].container == rs[i].container && rs[k].at == rs[i].at); }
      }
      SumOneHot(rs, Cell(c, t), k);
      SumOneHot(rs, CellCount(c, t), k);
      ValsHas(rs, c, k);
    } else {
      SumConst(rs, Cell(c, t), 0);
      SumConst(rs, CellCount(c, t), 0);
    }
  }

  function Instants(rs: seq<Reading>, times: seq<int>): (v: seq<int>)
    ensures |v| == |times| && forall i :: 0 <= i < |times| ==> v[i] == Sum(rs, AtTime(times[i]))
  {
    Map(times, t => Sum(rs, AtTime(t)))
  }

  /** One container's total at each timestamp. */
  function CellSums(rs: seq<Reading>, c: string, times: seq<int>): (v: seq<int>)
    ensures |v| == |times| && forall i :: 0 <= i < |times| ==> v[i] == Sum(rs, Cell(c, times[i]))
  {
    Map(times, t => Sum(rs, Cell(c, t)))
  }

  /** A container's largest total at one timestamp. */
  function CellPeak(rs: seq<Reading>, times: seq<int>): Row -> int {
    (r: Row) => Peak(CellSums(rs, r.name, times))
  }

  /** The load at any timestamp is the sum of its cells. */
  lemma InstantBelowPeaks(rs: seq<Reading>, rows: seq<Row>, times: seq<int>, k: nat)
    requires RowsOk(rs, rows) && k < |times|
    ensures Sum(rs, AtTime(times[k])) <= Sum(rows, CellPeak(rs, times))
  {
    var names, t := Names(rows), times[k];
    GroupTotal(rs, names, ContainerOf, AtTime(t));
    SumMap(rows, (r: Row) => r.name, GroupSum(rs, ContainerOf, AtTime(t)), (r: Row) => Sum(rs, Cell(r.name, t)));
    assert names == Map(rows, (r: Row) => r.name);
    forall i | 0 <= i < |rows| ensures Sum(rs, Cell(rows[i].name, t)) <= CellPeak(rs, times)(rows[i]) {
      PeakTops(CellSums(rs, rows[i].name, times));
    }
    SumLe(rows, (r: Row) => Sum(rs, Cell(r.name, t)), CellPeak(rs, times));
  }

  /** For all readings: the combined peak is at most the containers' largest per-timestamp totals added up. */
  lemma CombinedPeakBound(rs: seq<Reading>, rows: seq<Row>, times: seq<int>)
    requires RowsOk(rs, rows)
    ensures Peak(Instants(rs, times)) <= Sum(rows, CellPeak(rs, times))
  {
    var vs := Instants(rs, times);
    PeakTops(vs);
    if Peak(vs) == 0 {
      forall i | 0 <= i < |rows| ensures 0 <= CellPeak(rs, times)(rows[i]) {
        PeakTops(CellSums(rs, rows[i].name, times));
      }
      SumConst(rows, r => 0, 0);
      SumLe(rows, r => 0, CellPeak(rs, times));
    } else {
      var i :| 0 <= i < |vs| && vs[i] == Peak(vs);
      InstantBelowPeaks(rs, rows, times, i);
    }
  }

  lemma CellPeakBelow(rs: seq<Reading>, row: Row, times: seq<int>)
    requires RowOk(rs, row) && OnePerCell(rs)
    ensures CellPeak(rs, times)(row) <= row.peak
  {
    var sums := CellSums(rs, row.name, times);
    PeakTops(sums);
    PeakTops(Vals(rs, row.name));
    if Peak(sums) != 0 {
      var i :| 0 <= i < |sums| && sums[i] == Peak(sums);
      CellIsOneReading(rs, row.name, times[i]);
    }
  }

  /** When no container reports twice at one timestamp, that is at most the container peaks added up. */
  lemma CombinedPeakBelowPeaks(rs: seq<Reading>, rows: seq<Row>, times: seq<int>)
    requires RowsOk(rs, rows) && OnePerCell(rs)
    ensures Peak(Instants(rs, times)) <= Sum(rows, RowPeak)
  {
    CombinedPeakBound(rs, rows, times);
    forall i | 0 <= i < |rows| ensures CellPeak(rs, times)(rows[i]) <= rows[i].peak {
      CellPeakBelow(rs, rows[i], times);
    }
    SumLe(rows, CellPeak(rs, times), RowPeak);
  }

  // ---------------------------------------------------------------- averages

  /** A container reports at most once per timestamp, so at most as often as there are timestamps. */
  lemma CountAtMostTimes(rs: seq<Reading>, times: seq<int>, c: string)
    requires OnePerCell(rs) && TimesOk(rs, times)
    ensures Sum(rs, InContainer(c)) <= |times|
    ensures Sum(rs, InContainer(c)) == |times| <==> forall k :: 0 <= k < |times| ==> Reports(rs, c, times[k])
  {
    GroupTotal(rs, times, TimeOf, InContainer(c));
    var cells, one := GroupSum(rs, TimeOf, InContainer(c)), (t: int) => 1;
    forall k | 0 <= k < |times| ensures cells(times[k]) == if Reports(rs, c, times[k]) then 1 else 0 {
      CellIsOneReading(rs, c, times[k]);
    }
    SumLe(times, cells, one);
    SumConst(times, one, 1);
  }

  function Avg(r: Row): real
    requires r.n > 0
  {
    r.sum as real / r.n as real
  }

  /** The container averages added up. */
  function SumOfAverages(rows: seq<Row>): real
    requires forall i :: 0 <= i < |rows| ==> rows[i].n > 0
  {
    if rows == [] then 0.0 else SumOfAverages(rows[..|rows| - 1]) + Avg(rows[|rows| - 1])
  }

  lemma FewerIsMore(sum: int, n: nat, m: nat)
    requires sum >= 0 && 0 < n <= m
    ensures sum as real / m as real <= sum as real / n as real
    ensures sum as real / m as real == sum as real / n as real <==> n == m || sum == 0
  {
    var a, b := sum as real / m as real, sum as real / n as real;
    assert a * m as real == sum as real && b * n as real == sum as real;
    if n < m && sum > 0 {
      assert b > 0.0;
      assert b * m as real > b * n as real;
      assert (a - b) * m as real < 0.0;
    }
  }

  lemma DivideSum(x: int, y: int, m: nat)
    requires m > 0
    ensures (x + y) as real / m as real == x as real / m as real + y as real / m as real
  {}

  lemma {:induction false} AveragesCompare(rows: seq<Row>, m: nat)
    requires m > 0 && forall i :: 0 <= i < |rows| ==> 0 < rows[i].n <= m && rows[i].sum >= 0
    ensures Sum(rows, RowSum) as real / m as real <= SumOfAverages(rows)
    ensures Sum(rows, RowSum) as real / m as real == SumOfAverages(rows) <==>
      forall i :: 0 <= i < |rows| ==> rows[i].n == m || rows[i].sum == 0
  {
    if rows != [] {
      var t, last := rows[..|rows| - 1], rows[|rows| - 1];
      assert rows == t + [last];
      AveragesCompare(t, m);
      SumSnoc(t, last, RowSum);
      DivideSum(Sum(t, RowSum), last.sum, m);
      FewerIsMore(last.sum, last.n, m);
      assert forall i :: 0 <= i < |t| ==> t[i] == rows[i];
      assert (forall i :: 0 <= i < |rows| ==> rows[i].n == m || rows[i].sum == 0) <==>
        (forall i :: 0 <= i < |t| ==> t[i].n == m || t[i].sum == 0) && (last.n == m || last.sum == 0);
    }
  }

  /** How far the combined average is from a row's: sum * (1 / m - 1 / n), added up over the rows. */
  function Shortfall(rows: seq<Row>, m: nat): real
    requires m > 0 && forall i :: 0 <= i < |rows| ==> rows[i].n > 0
  {
    if rows == [] then 0.0
    else
      var last := rows[|rows| - 1];
      Shortfall(rows[..|rows| - 1], m) + last.sum as real * (1.0 / m as real - 1.0 / last.n as real)
  }

  lemma Reciprocal(x: real, d: real)
    requires d > 0.0
    ensures x * (1.0 / d) == x / d
  {
    var q := x / d;
    assert x == q * d;
    assert q * d * (1.0 / d) == q * (d * (1.0 / d));
  }

  lemma Distribute(x: real, a: real, b: real)
    ensures x * (a - b) == x * a - x * b
  {}

  lemma OneShortfall(sum: int, n: nat, m: nat)
    requires n > 0 && m > 0
    ensures sum as real * (1.0 / m as real - 1.0 / n as real) == sum as real / m as real - sum as real / n as real
  {
    Reciprocal(sum as real, m as real);
    Reciprocal(sum as real, n as real);
    Distribute(sum as real, 1.0 / m as real, 1.0 / n as real);
  }

  lemma {:induction false} ShortfallIs(rows: seq<Row>, m: nat)
    requires m > 0 && forall i :: 0 <= i < |rows| ==> rows[i].n > 0
    ensures Sum(rows, RowSum) as real / m as real - SumOfAverages(rows) == Shortfall(rows, m)
  {
    if rows != [] {
      var t, last := rows[..|rows| - 1], rows[|rows| - 1];
      assert rows == t + [last];
      ShortfallIs(t, m);
      SumSnoc(t, last, RowSum);
      DivideSum(Sum(t, RowSum), last.sum, m);
      OneShortfall(last.sum, last.n, m);
    }
  }

  /** For all readings: the exact difference between the combined average and the sum of the container averages. */
  lemma AverageGap(rs: seq<Reading>, rows: seq<Row>, times: seq<int>)
    requires RowsOk(rs, rows) && TimesOk(rs, times) && rs != []
    ensures |times| > 0
    ensures Sum(rs, Cpu) as real / |times| as real - SumOfAverages(rows) == Shortfall(rows, |times|)
  {
    assert rs[0].at in times;
    TwoWayTotal(rs, rows, times);
    ShortfallIs(rows, |times|);
  }

  lemma RowSumNonNegative(rs: seq<Reading>, row: Row)
    requires RowOk(rs, row) && forall i :: 0 <= i < |rs| ==> rs[i].cpu >= 0
    ensures row.sum >= 0
  {
    var zero := (r: Reading) => 0;
    SumConst(rs, zero, 0);
    SumLe(rs, zero, OfContainer(row.name));
  }

  /** No container reports more often than there are timestamps. */
  ghost predicate CountsFit(rows: seq<Row>, times: seq<int>) {
    forall k :: 0 <= k < |rows| ==> rows[k].n <= |times|
  }

  /** So it is when none reports twice at one timestamp. */
  lemma OnePerCellFits(rs: seq<Reading>, rows: seq<Row>, times: seq<int>)
    requires RowsOk(rs, rows) && TimesOk(rs, times) && OnePerCell(rs)
    ensures CountsFit(rows, times)
  {
    forall k | 0 <= k < |rows| ensures rows[k].n <= |times| { CountAtMostTimes(rs, times, rows[k].name); }
  }

  /**
   When the combined average equals the sum of the container averages, as the source's comment
   has it always do: for non-negative readings with no container reporting more often than there
   are timestamps, exactly when every container that reported less often read zero throughout.
   Otherwise the combined average is the smaller of the two.
   */
  lemma AveragesAgreeIff(rs: seq<Reading>, rows: seq<Row>, times: seq<int>)
    requires RowsOk(rs, rows) && TimesOk(rs, times) && CountsFit(rows, times) && rs != []
    requires forall i :: 0 <= i < |rs| ==> rs[i].cpu >= 0
    ensures |times| > 0 && Sum(rs, Cpu) as real / |times| as real <= SumOfAverages(rows)
    ensures Sum(rs, Cpu) as real / |times| as real == SumOfAverages(rows) <==>
      forall k :: 0 <= k < |rows| ==> rows[k].n == |times| || rows[k].sum == 0
  {
    assert rs[0].at in times;
    TwoWayTotal(rs, rows, times);
    forall k | 0 <= k < |rows| ensures 0 < rows[k].n <= |times| && rows[k].sum >= 0 {
      RowSumNonNegative(rs, rows[k]);
    }
    AveragesCompare(rows, |times|);
  }

  lemma {:induction false} EqualCounts(rows: seq<Row>, m: nat)
    requires m > 0 && forall i :: 0 <= i < |rows| ==> rows[i].n == m
    ensures Sum(rows, RowSum) as real / m as real == SumOfAverages(rows)
  {
    if rows != [] {
      var t, last := rows[..|rows| - 1], rows[|rows| - 1];
      assert rows == t + [last];
      EqualCounts(t, m);
      SumSnoc(t, last, RowSum);
      DivideSum(Sum(t, RowSum), last.sum, m);
    }
  }

  /** When every container reports as often as there are timestamps the two averages agree, for all such readings. */
  lemma AveragesAgreeOnEqualCounts(rs: seq<Reading>, rows: seq<Row>, times: seq<int>)
    requires RowsOk(rs, rows) && TimesOk(rs, times) && rs != []
    requires forall k :: 0 <= k < |rows| ==> rows[k].n == |times|
    ensures |times| > 0 && Sum(rs, Cpu) as real / |times| as real == SumOfAverages(rows)
  {
    assert rs[0].at in times;
    TwoWayTotal(rs, rows, times);
    EqualCounts(rows, |times|);
  }

  /** Every container reports at every timestamp. */
  ghost predicate FullGrid(rs: seq<Reading>, rows: seq<Row>, times: seq<int>) {
    forall k, j :: 0 <= k < |rows| && 0 <= j < |times| ==> Reports(rs, rows[k].name, times[j])
  }

  /** So they agree on a full grid without double reports. */
  lemma AveragesAgreeOnGrid(rs: seq<Reading>, rows: seq<Row>, times: seq<int>)
    requires RowsOk(rs, rows) && TimesOk(rs, times) && OnePerCell(rs) && rs != [] && FullGrid(rs, rows, times)
    ensures |times| > 0 && Sum(rs, Cpu) as real / |times| as real == SumOfAverages(rows)
  {
    forall k | 0 <= k < |rows| ensures rows[k].n == |times| { CountAtMostTimes(rs, times, rows[k].name); }
    AveragesAgreeOnEqualCounts(rs, rows, times);
  }

  // ---------------------------------------------------------------- readings for which the figures differ

  /** One container twice at one timestamp. */
  function DoubledReadings(): seq<Reading> { [Reading(0, "a", 50), Reading(0, "a", 50)] }

  lemma TwoFifties()
    ensures Sum([50], Self) == 50 && Sum([50, 50], Self) == 100 && Peak([50]) == 50 && Peak([50, 50]) == 50
  {
    assert [50, 50][..1] == [50] && [50][..0] == [];
  }

  lemma ValsSnoc(rs: seq<Reading>, r: Reading, c: string)
    ensures Vals(rs + [r], c) == Vals(rs, c) + (if r.container == c then [r.cpu] else [])
  {
    assert (rs + [r])[..|rs|] == rs;
  }

  lemma DoubledVals()
    ensures Vals(DoubledReadings(), "a") == [50, 50]
  {
    var x := Reading(0, "a", 50);
    assert DoubledReadings() == [] + [x] + [x];
    ValsSnoc([], x, "a");
    ValsSnoc([] + [x], x, "a");
  }

  lemma DoubledRow()
    ensures RowsOk(DoubledReadings(), [Row("a", 100, 50, 2)])
  {
    DoubledVals();
    ValsSums(DoubledReadings(), "a");
    TwoFifties();
    assert Names([Row("a", 100, 50, 2)]) == ["a"];
  }

  lemma DoubledTimes()
    ensures TimesOk(DoubledReadings(), [0]) && FullGrid(DoubledReadings(), [Row("a", 100, 50, 2)], [0])
  {
    assert DoubledReadings()[0].at == 0 && DoubledReadings()[0].container == "a";
  }

  lemma DoubledInstant()
    ensures Sum(DoubledReadings(), AtTime(0)) == 100 && Peak(Instants(DoubledReadings(), [0])) == 100
    ensures Sum(DoubledReadings(), Cpu) == 100
  {
    var x := Reading(0, "a", 50);
    assert DoubledReadings() == [] + [x] + [x];
    SumSnoc([], x, AtTime(0));
    SumSnoc([] + [x], x, AtTime(0));
    SumSnoc([], x, Cpu);
    SumSnoc([] + [x], x, Cpu);
    assert Instants(DoubledReadings(), [0]) == [100];
    PeakTops([100]);
  }

  lemma DoubledSums(rows: seq<Row>)
    requires rows == [Row("a", 100, 50, 2)]
    ensures SumOfAverages(rows) == 50.0 && Sum(rows, RowPeak) == 50
  {
    assert rows == [] + rows;
    SumSnoc([], rows[0], RowPeak);
    assert rows[..0] == [];
  }

  lemma Exceeds(total: int, n: nat, averages: real, peak: int, peaks: int)
    requires total == 100 && n == 1 && averages == 50.0 && peak == 100 && peaks == 50
    ensures total as real / n as real > averages && peak > peaks
  {}

  /**
   A container reporting twice at one timestamp makes both combined figures exceed the sums of
   the container figures, although nobody missed a timestamp.
   */
  lemma DoubleReportExceeds() returns (rs: seq<Reading>, rows: seq<Row>, times: seq<int>)
    ensures RowsOk(rs, rows) && TimesOk(rs, times) && FullGrid(rs, rows, times) && rs != [] && |times| > 0
    ensures Sum(rs, Cpu) as real / |times| as real > SumOfAverages(rows)
    ensures Peak(Instants(rs, times)) > Sum(rows, RowPeak)
  {
    rs, rows, times := DoubledReadings(), [Row("a", 100, 50, 2)], [0];
    DoubledRow();
    DoubledTimes();
    DoubledInstant();
    DoubledSums(rows);
    Exceeds(Sum(rs, Cpu), |times|, SumOfAverages(rows), Peak(Instants(rs, times)), Sum(rows, RowPeak));
  }

  /** Two containers at one instant, only one of them at the next. */
  function MissedPollReadings(): seq<Reading> { [Reading(0, "a", 50), Reading(0, "b", 50), Reading(1, "a", 50)] }

  lemma MissedPollRows(x: Reading, y: Reading, z: Reading)
    requires x == Reading(0, "a", 50) && y == Reading(0, "b", 50) && z == Reading(1, "a", 50)
    ensures RowOk([x, y, z], Row("a", 100, 50, 2)) && RowOk([x, y, z], Row("b", 50, 50, 1))
  {
    var rs := [x, y, z];
    assert [x] + [y] == [x, y] && [x, y] + [z] == rs && [] + [x] == [x];
    ValsSnoc([], x, "a"); ValsSnoc([x], y, "a"); ValsSnoc([x, y], z, "a");
    ValsSnoc([], x, "b"); ValsSnoc([x], y, "b"); ValsSnoc([x, y], z, "b");
    assert Vals(rs, "a") == [50, 50] && Vals(rs, "b") == [50];
    ValsSums(rs, "a");
    ValsSums(rs, "b");
    TwoFifties();
  }

  lemma MissedPollRowsOk() returns (rows: seq<Row>)
    ensures RowsOk(MissedPollReadings(), rows) && rows == [Row("a", 100, 50, 2), Row("b", 50, 50, 1)]
  {
    rows := [Row("a", 100, 50, 2), Row("b", 50, 50, 1)];
    MissedPollRows(Reading(0, "a", 50), Reading(0, "b", 50), Reading(1, "a", 50));
    assert Names(rows) == ["a", "b"];
  }

  lemma MissedPollTimes()
    ensures TimesOk(MissedPollReadings(), [0, 1]) && OnePerCell(MissedPollReadings()) && MissedPollReadings() != []
    ensures forall i :: 0 <= i < |MissedPollReadings()| ==> MissedPollReadings()[i].cpu >= 0
  {
    var rs := MissedPollReadings();
    assert rs[0].at == 0 && rs[2].at == 1;
  }

  lemma SomeoneMissed(rs: seq<Reading>, rows: seq<Row>, times: seq<int>, k: nat)
    requires RowsOk(rs, rows) && TimesOk(rs, times) && CountsFit(rows, times) && rs != []
    requires forall i :: 0 <= i < |rs| ==> rs[i].cpu >= 0
    requires k < |rows| && rows[k].n != |times| && rows[k].sum != 0
    ensures |times| > 0 && Sum(rs, Cpu) as real / |times| as real < SumOfAverages(rows)
  {
    AveragesAgreeIff(rs, rows, times);
  }

  lemma MissedPoll() returns (rs: seq<Reading>, rows: seq<Row>, times: seq<int>)
    ensures RowsOk(rs, rows) && TimesOk(rs, times) && OnePerCell(rs) && rs != []
    ensures forall i :: 0 <= i < |rs| ==> rs[i].cpu >= 0
    ensures |rows| > 1 && rows[1].n != |times| && rows[1].sum != 0
  {
    rs, times := MissedPollReadings(), [0, 1];
    rows := MissedPollRowsOk();
    MissedPollTimes();
  }

  /** A missed poll makes the two averages differ. */
  lemma AveragesCanDiffer() returns (rs: seq<Reading>, rows: seq<Row>, times: seq<int>)
    ensures RowsOk(rs, rows) && TimesOk(rs, times) && OnePerCell(rs) && rs != [] && |times| > 0
    ensures Sum(rs, Cpu) as real / |times| as real < SumOfAverages(rows)
  {
    rs, rows, times := MissedPoll();
    OnePerCellFits(rs, rows, times);
    SomeoneMissed(rs, rows, times, 1);
  }

  // ---------------------------------------------------------------- the loops

  function Inside(samples: seq<Reading>, start: int, end: int): seq<Reading> {
    if samples == [] then []
    else
      var last := samples[|samples| - 1];
      Inside(samples[..|samples| - 1], start, end) + (if start <= last.at <= end then [last] else [])
  }

  /** The places of the kept readings in samples: ascending, and all those of the closed window. */
  ghost predicate KeepsInOrder(samples: seq<Reading>, kept: seq<Reading>, at: seq<nat>, start: int, end: int) {
    && |at| == |kept|
    && (forall i, j :: 0 <= i < j < |at| ==> at[i] < at[j])
    && (forall i :: 0 <= i < |at| ==> at[i] < |samples| && kept[i] == samples[at[i]])
    && (forall i :: 0 <= i < |at| ==> start <= kept[i].at <= end)
    && (forall k :: 0 <= k < |samples| && start <= samples[k].at <= end ==> k in at)
  }

  lemma KeepsNext(samples: seq<Reading>, x: Reading, kept: seq<Reading>, at: seq<nat>, start: int, end: int)
    requires KeepsInOrder(samples, kept, at, start, end)
    ensures start <= x.at <= end ==> KeepsInOrder(samples + [x], kept + [x], at + [|samples|], start, end)
    ensures !(start <= x.at <= end) ==> KeepsInOrder(samples + [x], kept, at, start, end)
  {
    var all := samples + [x];
    forall k | 0 <= k < |all| && start <= all[k].at <= end ensures k in at + [|samples|] {
      if k < |samples| {
        assert all[k] == samples[k];
      } else {
        assert (at + [|samples|])[|at|] == k;
      }
    }
  }

  /** Inside keeps each reading of the closed window once, where it stands, and nothing else. */
  lemma {:induction false} InsideKeeps(samples: seq<Reading>, start: int, end: int) returns (at: seq<nat>)
    ensures KeepsInOrder(samples, Inside(samples, start, end), at, start, end)
  {
    if samples == [] {
      at := [];
    } else {
      var n := |samples| - 1;
      at := InsideKeeps(samples[..n], start, end);
      KeepsNext(samples[..n], samples[n], Inside(samples[..n], start, end), at, start, end);
      assert samples == samples[..n] + [samples[n]];
      if start <= samples[n].at <= end {
        at := at + [n];
      } else {
        assert Inside(samples, start, end) == Inside(samples[..n], start, end);
      }
    }
  }

  /** Keeps the readings of the window, both ends included, or all of them when fewer than three are left. */
  method InWindow(samples: seq<Reading>, start: int, end: int) returns (rs: seq<Reading>, windowed: bool)
    ensures windowed <==> |Inside(samples, start, end)| >= 3
    ensures rs == if windowed then Inside(samples, start, end) else samples
  {
    rs := [];
    for i := 0 to |samples|
      invariant rs == Inside(samples[..i], start, end)
    {
      assert samples[..i + 1][..i] == samples[..i];
      if !(samples[i].at < start) && !(samples[i].at > end) { rs := rs + [samples[i]]; }
    }
    assert samples[..|samples|] == samples;
    windowed := true;
    if |rs| < 3 { rs, windowed := samples, false; }
  }

  ghost predicate HasContainer(rs: seq<Reading>, c: string) {
    exists i :: 0 <= i < |rs| && rs[i].container == c
  }

  ghost predicate HasTime(rs: seq<Reading>, t: int) {
    exists i :: 0 <= i < |rs| && rs[i].at == t
  }

  /** byContainer holds exactly the containers of rs, each with its readings in order. */
  ghost predicate ByContainer(rs: seq<Reading>, byContainer: map<string, seq<int>>) {
    && (forall c :: c in byContainer <==> HasContainer(rs, c))
    && (forall c :: c in byContainer ==> byContainer[c] == Vals(rs, c))
  }

  /** byTime holds exactly the timestamps of rs, each with its total. */
  ghost predicate ByTime(rs: seq<Reading>, byTime: map<int, int>) {
    && (forall t :: t in byTime <==> HasTime(rs, t))
    && (forall t :: t in byTime ==> byTime[t] == Sum(rs, AtTime(t)))
  }

  lemma {:induction false} NoVals(rs: seq<Reading>, c: string)
    requires !HasContainer(rs, c)
    ensures Vals(rs, c) == []
  {
    if rs != [] {
      var u := rs[..|rs| - 1];
      assert forall i :: 0 <= i < |u| ==> u[i] == rs[i];
      NoVals(u, c);
    }
  }

  lemma NoTime(rs: seq<Reading>, t: int)
    requires !HasTime(rs, t)
    ensures Sum(rs, AtTime(t)) == 0
  {
    SumConst(rs, AtTime(t), 0);
  }

  lemma HasSnoc(rs: seq<Reading>, r: Reading, c: string, t: int)
    ensures HasContainer(rs + [r], c) <==> HasContainer(rs, c) || r.container == c
    ensures HasTime(rs + [r], t) <==> HasTime(rs, t) || r.at == t
  {
    var all := rs + [r];
    assert all[|rs|] == r && forall i :: 0 <= i < |rs| ==> all[i] == rs[i];
  }

  lemma ByContainerSnoc(rs: seq<Reading>, r: Reading, m: map<string, seq<int>>)
    requires ByContainer(rs, m)
    ensures ByContainer(rs + [r], m[r.container := (if r.container in m then m[r.container] else []) + [r.cpu]])
  {
    if r.container !in m { NoVals(rs, r.container); }
    forall c
      ensures Vals(rs + [r], c) == Vals(rs, c) + (if r.container == c then [r.cpu] else [])
      ensures HasContainer(rs + [r], c) <==> HasContainer(rs, c) || r.container == c
    {
      ValsSnoc(rs, r, c);
      HasSnoc(rs, r, c, 0);
    }
  }

  lemma ByTimeSnoc(rs: seq<Reading>, r: Reading, m: map<int, int>)
    requires ByTime(rs, m)
    ensures ByTime(rs + [r], m[r.at := (if r.at in m then m[r.at] else 0) + r.cpu])
  {
    if r.at !in m { NoTime(rs, r.at); }
    forall t
      ensures Sum(rs + [r], AtTime(t)) == Sum(rs, AtTime(t)) + (if r.at == t then r.cpu else 0)
      ensures HasTime(rs + [r], t) <==> HasTime(rs, t) || r.at == t
    {
      SumSnoc(rs, r, AtTime(t));
      HasSnoc(rs, r, "", t);
    }
  }

  method GroupBoth(rs: seq<Reading>) returns (byContainer: map<string, seq<int>>, byTime: map<int, int>)
    ensures ByContainer(rs, byContainer) && ByTime(rs, byTime)
  {
    byContainer, byTime := map[], map[];
    for i := 0 to |rs|
      invariant ByContainer(rs[..i], byContainer) && ByTime(rs[..i], byTime)
    {
      var r := rs[i];
      assert rs[..i + 1] == rs[..i] + [r];
      ByContainerSnoc(rs[..i], r, byContainer);
      ByTimeSnoc(rs[..i], r, byTime);
      var vals := if r.container in byContainer then byContainer[r.container] else [];
      byContainer := byContainer[r.container := vals + [r.cpu]];
      byTime := byTime[r.at := (if r.at in byTime then byTime[r.at] else 0) + r.cpu];
    }
    assert rs[..|rs|] == rs;
  }

  /** One container's running sum and peak. */
  method SumAndPeak(vals: seq<int>) returns (sum: int, peak: int)
    ensures sum == Sum(vals, Self) && peak == Peak(vals)
  {
    sum, peak := 0, 0;
    for i := 0 to |vals|
      invariant sum == Sum(vals[..i], Self) && peak == Peak(vals[..i])
    {
      SumTake(vals, i, Self);
      assert vals[..i + 1][..i] == vals[..i];
      sum := sum + vals[i];
      if vals[i] > peak { peak := vals[i]; }
    }
    assert vals[..|vals|] == vals;
  }

  /** Rows for the containers that are no longer to do. */
  ghost predicate RowsSoFar(rs: seq<Reading>, rows: seq<Row>, todo: set<string>) {
    && (forall i :: 0 <= i < |rows| ==> RowOk(rs, rows[i]) && rows[i].name !in todo)
    && Distinct(Names(rows))
    && (forall i :: 0 <= i < |rs| ==> rs[i].container in todo || rs[i].container in Names(rows))
  }

  lemma NextRow(rs: seq<Reading>, rows: seq<Row>, todo: set<string>, row: Row)
    requires RowsSoFar(rs, rows, todo) && row.name in todo && RowOk(rs, row)
    ensures RowsSoFar(rs, rows + [row], todo - {row.name})
  {
    var before, after := Names(rows), Names(rows + [row]);
    assert after == before + [row.name];
    forall i | 0 <= i < |before| ensures before[i] != row.name { assert rows[i].name !in todo; }
  }

  lemma RowIsOk(rs: seq<Reading>, row: Row)
    requires HasContainer(rs, row.name)
    requires row.sum == Sum(Vals(rs, row.name), Self) && row.peak == Peak(Vals(rs, row.name))
    requires row.n == |Vals(rs, row.name)|
    ensures RowOk(rs, row)
  {
    ValsSums(rs, row.name);
    var i :| 0 <= i < |rs| && rs[i].container == row.name;
    ValsHas(rs, row.name, i);
  }

  /** One row per container, in whatever order the map yields them. */
  method Rows(ghost rs: seq<Reading>, byContainer: map<string, seq<int>>) returns (rows: seq<Row>)
    requires ByContainer(rs, byContainer)
    ensures RowsOk(rs, rows)
  {
    rows := [];
    var todo := byContainer.Keys;
    assert forall i :: 0 <= i < |rs| ==> HasContainer(rs, rs[i].container);
    while todo != {}
      invariant todo <= byContainer.Keys && RowsSoFar(rs, rows, todo)
      decreases |todo|
    {
      var name := Next(todo);
      var sum, peak := SumAndPeak(byContainer[name]);
      var row := Row(name, sum, peak, |byContainer[name]|);
      RowIsOk(rs, row);
      NextRow(rs, rows, todo, row);
      rows, todo := rows + [row], todo - {name};
    }
  }

  /** The keys of a map, in whatever order the map yields them. */
  method Keys<K, V>(m: map<K, V>) returns (keys: seq<K>)
    ensures Distinct(keys) && |keys| == |m| && forall k :: k in keys <==> k in m
  {
    keys := [];
    var todo := m.Keys;
    while todo != {}
      invariant todo <= m.Keys && |keys| + |todo| == |m|
      invariant Distinct(keys) && forall i :: 0 <= i < |keys| ==> keys[i] !in todo && keys[i] in m
      invariant forall k :: k in m ==> k in todo || k in keys
      decreases |todo|
    {
      var k := Next(todo);
      todo := todo - {k};
      keys := keys + [k];
    }
  }

  lemma TimesAreOk(rs: seq<Reading>, byTime: map<int, int>, times: seq<int>)
    requires ByTime(rs, byTime) && Distinct(times) && forall t :: t in times <==> t in byTime
    ensures TimesOk(rs, times)
  {
    forall i | 0 <= i < |rs| ensures rs[i].at in times { assert HasTime(rs, rs[i].at); }
    forall t | t in times ensures exists i :: 0 <= i < |rs| && rs[i].at == t { assert HasTime(rs, t); }
  }

  lemma TwiceIn<T>(t: seq<T>, i: nat, j: nat)
    requires i < j < |t| && t[i] == t[j]
    ensures multiset(t)[t[i]] >= 2
  {
    assert t == t[..j] + t[j..];
    assert t[..j][i] == t[i] && t[j..][0] == t[j];
  }

  lemma {:induction false} OnceIn<T>(s: seq<T>, x: T)
    requires Distinct(s)
    ensures multiset(s)[x] <= 1
  {
    if s != [] {
      var u := s[..|s| - 1];
      assert s == u + [s[|s| - 1]];
      OnceIn(u, x);
    }
  }

  lemma PermKeeps(s: seq<int>, t: seq<int>)
    requires multiset(s) == multiset(t) && Distinct(s)
    ensures Distinct(t) && |s| == |t| && forall x :: x in s <==> x in t
  {
    assert |multiset(s)| == |s| && |multiset(t)| == |t|;
    forall x ensures x in s <==> x in t { assert x in multiset(s) <==> x in multiset(t); }
    forall i, j | 0 <= i < j < |t| ensures t[i] != t[j] {
      if t[i] == t[j] {
        TwiceIn(t, i, j);
        OnceIn(s, t[i]);
      }
    }
  }

  /** The timestamps, sorted. */
  method Times(ghost rs: seq<Reading>, byTime: map<int, int>) returns (times: seq<int>)
    requires ByTime(rs, byTime)
    ensures TimesOk(rs, times) && Ascending(times) && |times| == |byTime|
    ensures forall i :: 0 <= i < |times| ==> times[i] in byTime
  {
    var keys := Keys(byTime);
    var a := new int[|keys|](i requires 0 <= i < |keys| => keys[i]);
    assert a[..] == keys;
    SortDurations(a);
    times := a[..];
    PermKeeps(keys, times);
    TimesAreOk(rs, byTime, times);
  }

  // ---------------------------------------------------------------- the order of the rows

  /** The busiest container first. */
  predicate ByAverage(rows: seq<Row>) {
    && (forall i :: 0 <= i < |rows| ==> rows[i].n > 0)
    && forall i, j :: 0 <= i <= j < |rows| ==> Avg(rows[i]) >= Avg(rows[j])
  }

  lemma DistinctRows(rows: seq<Row>)
    requires Distinct(Names(rows))
    ensures Distinct(rows)
  {
    forall i, j | 0 <= i < j < |rows| ensures rows[i] != rows[j] { assert Names(rows)[i] != Names(rows)[j]; }
  }

  lemma NameStays(rows: seq<Row>, sorted: seq<Row>, c: string)
    requires (forall r :: r in sorted <==> r in rows) && c in Names(rows)
    ensures c in Names(sorted)
  {
    var i :| 0 <= i < |rows| && Names(rows)[i] == c;
    assert rows[i] in sorted;
    var j :| 0 <= j < |sorted| && sorted[j] == rows[i];
    assert Names(sorted)[j] == c;
  }

  lemma SameRows(rows: seq<Row>, sorted: seq<Row>)
    requires multiset(sorted) == multiset(rows)
    ensures forall r :: r in sorted <==> r in rows
  {
    forall r ensures r in sorted <==> r in rows { assert r in multiset(sorted) <==> r in multiset(rows); }
  }

  /** Equal names would be equal rows, and there is only one of each. */
  lemma NamesStayDistinct(rs: seq<Reading>, rows: seq<Row>, sorted: seq<Row>)
    requires Distinct(Names(rows)) && multiset(sorted) == multiset(rows)
    requires forall i :: 0 <= i < |sorted| ==> RowOk(rs, sorted[i])
    ensures Distinct(Names(sorted))
  {
    DistinctRows(rows);
    forall i, j | 0 <= i < j < |sorted| ensures sorted[i].name != sorted[j].name {
      if sorted[i].name == sorted[j].name {
        assert sorted[i] == sorted[j];
        TwiceIn(sorted, i, j);
        OnceIn(rows, sorted[i]);
      }
    }
  }

  /** Rearranged rows are still one correct row for every container. */
  lemma RowsPerm(rs: seq<Reading>, rows: seq<Row>, sorted: seq<Row>)
    requires RowsOk(rs, rows) && multiset(sorted) == multiset(rows)
    ensures RowsOk(rs, sorted)
  {
    SameRows(rows, sorted);
    forall i | 0 <= i < |sorted| ensures RowOk(rs, sorted[i]) { assert sorted[i] in rows; }
    NamesStayDistinct(rs, rows, sorted);
    forall i | 0 <= i < |rs| ensures rs[i].container in Names(sorted) { NameStays(rows, sorted, rs[i].container); }
  }

  /** The sort by descending average. */
  method SortRows(ghost rs: seq<Reading>, rows: seq<Row>) returns (sorted: seq<Row>)
    requires RowsOk(rs, rows)
    ensures RowsOk(rs, sorted) && ByAverage(sorted) && multiset(sorted) == multiset(rows)
  {
    var a := new Row[|rows|](i requires 0 <= i < |rows| => rows[i]);
    assert a[..] == rows;
    SortSlice(a, (r: Row) => if r.n > 0 then -Avg(r) else 0.0);
    sorted := a[..];
    RowsPerm(rs, rows, sorted);
    forall i | 0 <= i < |sorted| ensures sorted[i].n > 0 { assert RowOk(rs, sorted[i]); }
  }

  datatype Agg = Agg(
    rows: seq<Row>, combinedAvg: real, combinedPeak: int, polls: nat,
    first: int, last: int, interval: int, windowed: bool)

  /** The figures taken from the sorted timestamps. */
  ghost predicate CombinedOk(rs: seq<Reading>, times: seq<int>, a: Agg) {
    && a.polls == |times| && a.combinedPeak == Peak(Instants(rs, times))
    && (times == [] ==> a.combinedAvg == 0.0 && a.interval == 0)
    && (times != [] ==> a.combinedAvg == Sum(rs, Cpu) as real / |times| as real)
    && (times != [] ==> a.first == times[0] && a.last == times[|times| - 1])
    && (a.interval == if |times| > 1 then (a.last - a.first) / (|times| - 1) else 0)
  }

  lemma PeakTake(vs: seq<int>, i: nat)
    requires i < |vs|
    ensures Peak(vs[..i + 1]) == if vs[i] > Peak(vs[..i]) then vs[i] else Peak(vs[..i])
  {
    assert vs[..i + 1][..i] == vs[..i];
  }

  /** What the loop finds under one timestamp. */
  lemma InstantAt(rs: seq<Reading>, byTime: map<int, int>, times: seq<int>, i: nat)
    requires ByTime(rs, byTime) && i < |times| && times[i] in byTime
    ensures GroupSum(rs, TimeOf, Cpu)(times[i]) == byTime[times[i]]
    ensures Instants(rs, times)[i] == byTime[times[i]]
  {
    var t := times[i];
    assert byTime[t] == Sum(rs, AtTime(t));
    assert AtTime(t) == Group(TimeOf, Cpu, t);
    assert GroupSum(rs, TimeOf, Cpu)(t) == Sum(rs, Group(TimeOf, Cpu, t));
  }

  /** The loop over the sorted timestamps: total and peak of the instantaneous sums. */
  method Instantaneous(ghost rs: seq<Reading>, byTime: map<int, int>, times: seq<int>) returns (sum: int, peak: int)
    requires ByTime(rs, byTime) && forall i :: 0 <= i < |times| ==> times[i] in byTime
    ensures sum == Sum(times, GroupSum(rs, TimeOf, Cpu)) && peak == Peak(Instants(rs, times))
  {
    sum, peak := 0, 0;
    ghost var total, vs := GroupSum(rs, TimeOf, Cpu), Instants(rs, times);
    for i := 0 to |times|
      invariant sum == Sum(times[..i], total) && peak == Peak(vs[..i])
    {
      var v := byTime[times[i]];
      InstantAt(rs, byTime, times, i);
      SumTake(times, i, total);
      PeakTake(vs, i);
      sum := sum + v;
      if v > peak { peak := v; }
    }
    assert times[..|times|] == times && vs[..|vs|] == vs;
  }

  method Combine(ghost rs: seq<Reading>, byTime: map<int, int>, times: seq<int>, rows: seq<Row>, windowed: bool)
      returns (a: Agg)
    requires ByTime(rs, byTime) && forall i :: 0 <= i < |times| ==> times[i] in byTime
    requires Sum(times, GroupSum(rs, TimeOf, Cpu)) == Sum(rs, Cpu)
    ensures a.rows == rows && a.windowed == windowed && CombinedOk(rs, times, a)
  {
    var sum, peak := Instantaneous(rs, byTime, times);
    a := Agg(rows, 0.0, peak, |times|, 0, 0, 0, windowed);
    if |times| > 0 {
      a := a.(combinedAvg := sum as real / |times| as real, first := times[0], last := times[|times| - 1]);
    }
    if |times| > 1 { a := a.(interval := (a.last - a.first) / (|times| - 1)); }
  }

  /** aggregate: the per-container rows and the combined figures of the readings that count. */
  method Aggregate(samples: seq<Reading>, start: int, end: int)
      returns (a: Agg, ghost rs: seq<Reading>, ghost times: seq<int>)
    ensures rs == if a.windowed then Inside(samples, start, end) else samples
    ensures a.windowed <==> |Inside(samples, start, end)| >= 3
    ensures RowsOk(rs, a.rows) && ByAverage(a.rows) && TimesOk(rs, times) && Ascending(times)
    ensures CombinedOk(rs, times, a)
  {
    var counted, windowed := InWindow(samples, start, end);
    rs := counted;
    var byContainer, byTime := GroupBoth(counted);
    var unordered := Rows(rs, byContainer);
    var rows := SortRows(rs, unordered);
    var ts := Times(rs, byTime);
    times := ts;
    TwoWayTotal(rs, rows, ts);
    a := Combine(rs, byTime, ts, rows, windowed);
  }
}
