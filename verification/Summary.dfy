/**
 The two countings of one phase: the printed report of cmd/loadtest/stats.go and the JSON
 summary of cmd/loadtest/summary.go. Both loops are proved against the same counts of samples,
 which is what makes the two documents agree.
 */
module Summary {
  import opened Wrappers
  import opened Sums
  import opened Sorting
  import opened Ranging
  import opened Samples
  import opened Percentiles
  import opened Decimal

  function Get<K>(m: map<K, nat>, k: K): nat {
    if k in m then m[k] else 0
  }

  function Bump<K>(m: map<K, nat>, k: K): map<K, nat> {
    m[k := Get(m, k) + 1]
  }

  /** The text an error kind is filed under in the JSON summary. */
  function Key(k: ErrKind): string {
    match k
    case ErrTimeout => "timeout"
    case ErrRefused => "connection refused"
    case ErrResetEOF => "reset / EOF"
    case ErrCapacity => "not sent (over capacity)"
    case ErrOther => "other"
  }

  lemma KeyInjective(k: ErrKind, l: ErrKind)
    requires Key(k) == Key(l)
    ensures k == l
  {
    assert |Key(ErrTimeout)| == 7 && |Key(ErrRefused)| == 18 && |Key(ErrResetEOF)| == 11;
    assert |Key(ErrCapacity)| == 24 && |Key(ErrOther)| == 5;
  }

  /** The windowed samples, in order. */
  function WindowOf(samples: seq<Sample>): (w: seq<Sample>)
    ensures forall i :: 0 <= i < |w| ==> w[i].inWindow
  {
    if samples == [] then []
    else
      var last := samples[|samples| - 1];
      WindowOf(samples[..|samples| - 1]) + (if last.inWindow then [last] else [])
  }

  method Window(samples: seq<Sample>) returns (w: seq<Sample>)
    ensures w == WindowOf(samples)
  {
    w := [];
    for i := 0 to |samples|
      invariant w == WindowOf(samples[..i])
    {
      assert samples[..i + 1][..i] == samples[..i];
      if samples[i].inWindow { w := w + [samples[i]]; }
    }
    assert samples[..|samples|] == samples;
  }

  /** Counting something that only windowed samples satisfy may start from the window. */
  lemma {:induction false} CountInWindow(samples: seq<Sample>, p: Sample -> bool)
    requires forall i :: 0 <= i < |samples| && p(samples[i]) ==> samples[i].inWindow
    ensures Count(WindowOf(samples), p) == Count(samples, p)
  {
    if samples != [] {
      var t, last := samples[..|samples| - 1], samples[|samples| - 1];
      assert forall i :: 0 <= i < |t| ==> t[i] == samples[i];
      CountInWindow(t, p);
      if last.inWindow { SumSnoc(WindowOf(t), last, Ind(p)); }
      else { assert WindowOf(samples) == WindowOf(t); }
    }
  }

  lemma {:induction false} WindowLength(samples: seq<Sample>)
    ensures |WindowOf(samples)| == Count(samples, Windowed)
  {
    if samples != [] { WindowLength(samples[..|samples| - 1]); }
  }

  /** The window has every count the two documents need. */
  lemma WindowCounts(samples: seq<Sample>, ok: int)
    ensures var w := WindowOf(samples);
      && |w| == Count(samples, Windowed)
      && Count(w, Failed) == Count(samples, Failed) && Count(w, NotOk(ok)) == Count(samples, NotOk(ok))
      && (forall c :: Count(w, Answered(c)) == Count(samples, Answered(c)))
      && (forall k :: Count(w, FailedAs(k)) == Count(samples, FailedAs(k)))
  {
    var w := WindowOf(samples);
    WindowLength(samples);
    CountInWindow(samples, Failed);
    CountInWindow(samples, NotOk(ok));
    forall c ensures Count(w, Answered(c)) == Count(samples, Answered(c)) { CountInWindow(samples, Answered(c)); }
    forall k ensures Count(w, FailedAs(k)) == Count(samples, FailedAs(k)) { CountInWindow(samples, FailedAs(k)); }
  }

  // ---------------------------------------------------------------- the printed report

  datatype Report = Report(
    statuses: map<int, nat>, errs: map<ErrKind, nat>, errTotal: nat, total: nat, accepted: nat, nonOK: nat)

  /** The counting loop at the top of report(). */
  method Tally(w: seq<Sample>) returns (statuses: map<int, nat>, errs: map<ErrKind, nat>, errTotal: nat)
    requires forall i :: 0 <= i < |w| ==> w[i].inWindow
    ensures forall c :: Get(statuses, c) == Count(w, Answered(c))
    ensures forall k :: Get(errs, k) == Count(w, FailedAs(k))
    ensures errTotal == Count(w, Failed)
  {
    statuses, errs, errTotal := map[], map[], 0;
    for i := 0 to |w|
      invariant forall c :: Get(statuses, c) == Count(w[..i], Answered(c))
      invariant forall k :: Get(errs, k) == Count(w[..i], FailedAs(k))
      invariant errTotal == Count(w[..i], Failed)
    {
      var s := w[i];
      forall c
        ensures Count(w[..i + 1], Answered(c)) == Count(w[..i], Answered(c)) + (if Answered(c)(s) then 1 else 0)
      {
        CountTake(w, i, Answered(c));
      }
      forall k
        ensures Count(w[..i + 1], FailedAs(k)) == Count(w[..i], FailedAs(k)) + (if FailedAs(k)(s) then 1 else 0)
      {
        CountTake(w, i, FailedAs(k));
      }
      CountTake(w, i, Failed);
      if s.err.Some? {
        errs := Bump(errs, Classify(s.err.value));
        errTotal := errTotal + 1;
      } else {
        statuses := Bump(statuses, s.status);
      }
    }
    assert w[..|w|] == w;
  }

  function AnsweredIn(codes: set<int>, ok: int): Sample -> bool {
    (s: Sample) => s.inWindow && s.err.None? && s.status in codes && s.status != ok
  }

  lemma CountNone(w: seq<Sample>, ok: int)
    ensures Count(w, AnsweredIn({}, ok)) == 0
  {
    SumConst(w, Ind(AnsweredIn({}, ok)), 0);
  }

  /** The loop over the status map, in whatever order the map yields its codes. */
  method SumOthers(w: seq<Sample>, statuses: map<int, nat>, ok: int) returns (nonOK: nat)
    requires forall c :: Get(statuses, c) == Count(w, Answered(c))
    ensures nonOK == Count(w, NotOk(ok))
  {
    nonOK := 0;
    var todo := statuses.Keys;
    ghost var done: set<int> := {};
    CountNone(w, ok);
    while todo != {}
      invariant done !! todo && done + todo == statuses.Keys
      invariant nonOK == Count(w, AnsweredIn(done, ok))
      decreases |todo|
    {
      var code := Next(todo);
      todo := todo - {code};
      if code != ok {
        nonOK := nonOK + statuses[code];
        CountSplits(w, AnsweredIn(done + {code}, ok), AnsweredIn(done, ok), Answered(code));
      } else {
        CountSame(w, AnsweredIn(done + {code}, ok), AnsweredIn(done, ok));
      }
      done := done + {code};
    }
    forall i | 0 <= i < |w| ensures AnsweredIn(done, ok)(w[i]) <==> NotOk(ok)(w[i]) {
      if NotOk(ok)(w[i]) {
        assert Answered(w[i].status)(w[i]);
        CountRange(w, Answered(w[i].status));
        assert Get(statuses, w[i].status) >= 1;
      }
    }
    CountSame(w, AnsweredIn(done, ok), NotOk(ok));
  }

  method PrintReport(samples: seq<Sample>, ok: int) returns (r: Report)
    ensures r.total == Count(samples, Windowed) && r.errTotal == Count(samples, Failed)
    ensures r.accepted == Count(samples, Answered(ok)) && r.nonOK == Count(samples, NotOk(ok))
    ensures forall c :: Get(r.statuses, c) == Count(samples, Answered(c))
    ensures forall k :: Get(r.errs, k) == Count(samples, FailedAs(k))
  {
    var w := Window(samples);
    WindowCounts(samples, ok);
    var statuses, errs, errTotal := Tally(w);
    var nonOK := SumOthers(w, statuses, ok);
    r := Report(statuses, errs, errTotal, |w|, Get(statuses, ok), nonOK);
  }

  // ---------------------------------------------------------------- the JSON summary

  /** Integer division as Go does it, towards zero. */
  function Quotient(a: int, n: nat): int
    requires n > 0
  {
    if a >= 0 then a / n else -(-a / n)
  }

  lemma Scale(a: int, b: int, n: nat)
    requires a <= b
    ensures a * n <= b * n
  {
    assert (b - a) * n >= 0;
  }

  lemma DivisionBounds(a: nat, n: nat)
    requires n > 0
    ensures a / n * n <= a < (a / n + 1) * n
  {
    assert a == a / n * n + a % n;
  }

  lemma DivMono(a: nat, b: nat, n: nat)
    requires n > 0 && a <= b
    ensures a / n <= b / n
  {
    DivisionBounds(a, n);
    DivisionBounds(b, n);
    if b / n < a / n { Scale(b / n + 1, a / n, n); }
  }

  lemma QuotientSign(a: nat, n: nat)
    requires n > 0
    ensures a / n >= 0
  {
    DivMono(0, a, n);
  }

  lemma QuotientMono(a: int, b: int, n: nat)
    requires n > 0 && a <= b
    ensures Quotient(a, n) <= Quotient(b, n)
  {
    if a >= 0 { DivMono(a, b, n); }
    else if b < 0 { DivMono(-b, -a, n); }
    else {
      QuotientSign(-a, n);
      QuotientSign(b, n);
    }
  }

  lemma DivOfMultiple(p: nat, n: nat)
    requires n > 0
    ensures p * n / n == p
  {
    var q := p * n / n;
    Scale(0, p, n);
    DivisionBounds(p * n, n);
    if q < p { Scale(q + 1, p, n); }
    if p < q { Scale(p + 1, q, n); }
  }

  /** The quotient is cut towards zero: it takes less than one n from a, and leaves its sign. */
  lemma QuotientCuts(a: int, n: nat)
    requires n > 0
    ensures var q := Quotient(a, n);
      (a >= 0 ==> 0 <= q && q * n <= a < (q + 1) * n) && (a < 0 ==> q <= 0 && (q - 1) * n < a <= q * n)
  {
    var m: nat := if a >= 0 then a else -a;
    DivisionBounds(m, n);
    QuotientSign(m, n);
    if a < 0 { assert (-(m / n)) * n == -(m / n * n) && (-(m / n) - 1) * n == -((m / n + 1) * n); }
  }

  lemma QuotientOfMultiple(a: int, n: nat)
    requires n > 0
    ensures Quotient(a * n, n) == a
  {
    if a >= 0 {
      Scale(0, a, n);
      DivOfMultiple(a, n);
    } else {
      Scale(a, -1, n);
      DivOfMultiple(-a, n);
      assert -(a * n) == -a * n;
    }
  }

  /** A duration in milliseconds, cut to microseconds. */
  function ToMS(d: int): real {
    Quotient(d, 1000) as real / 1000.0
  }

  /** A duration loses less than a microsecond. */
  lemma ToMSCuts(d: int)
    requires d >= 0
    ensures 0.0 <= d as real - 1000000.0 * ToMS(d) < 1000.0
  {
    DivisionBounds(d, 1000);
  }

  lemma ToMSMono(a: int, b: int)
    requires a <= b
    ensures ToMS(a) <= ToMS(b)
  {
    QuotientMono(a, b, 1000);
  }

  function MeanOf(vals: seq<int>): int {
    if vals == [] then 0 else Quotient(Total(vals), |vals|)
  }

  method Mean(vals: seq<int>) returns (m: int)
    ensures m == MeanOf(vals) && (vals == [] ==> m == 0)
    ensures vals != [] && Total(vals) >= 0 ==> m * |vals| <= Total(vals) < (m + 1) * |vals|
    ensures vals != [] && Total(vals) < 0 ==> (m - 1) * |vals| < Total(vals) <= m * |vals|
  {
    if |vals| == 0 { return 0; }
    var total := 0;
    for i := 0 to |vals|
      invariant total == Total(vals[..i])
    {
      SumTake(vals, i, Same);
      total := total + vals[i];
    }
    assert vals[..|vals|] == vals;
    m := Quotient(total, |vals|);
    QuotientCuts(total, |vals|);
  }

  lemma {:induction false} TotalBetween(vals: seq<int>, lo: int, hi: int)
    requires Within(vals, lo, hi)
    ensures lo * |vals| <= Total(vals) <= hi * |vals|
  {
    if vals != [] { TotalBetween(vals[..|vals| - 1], lo, hi); }
  }

  lemma MeanBetween(vals: seq<int>, lo: int, hi: int)
    requires vals != [] && Within(vals, lo, hi)
    ensures lo <= MeanOf(vals) <= hi
  {
    var n := |vals|;
    TotalBetween(vals, lo, hi);
    QuotientMono(lo * n, Total(vals), n);
    QuotientMono(Total(vals), hi * n, n);
    QuotientOfMultiple(lo, n);
    QuotientOfMultiple(hi, n);
  }

  datatype Stats = Stats(n: nat, min: real, p50: real, p95: real, p99: real, p999: real, max: real, mean: real)

  function PercentileMS(sorted: seq<int>, p: real): real {
    ToMS(Percentile(sorted, p))
  }

  /** statsFor: zero everywhere for an empty slice. */
  function StatsFor(sorted: seq<int>): Stats {
    if sorted == [] then Stats(0, 0.0, 0.0, 0.0, 0.0, 0.0, 0.0, 0.0)
    else Stats(|sorted|, ToMS(sorted[0]), PercentileMS(sorted, 50.0), PercentileMS(sorted, 95.0),
               PercentileMS(sorted, 99.0), PercentileMS(sorted, 99.9), ToMS(sorted[|sorted| - 1]), ToMS(MeanOf(sorted)))
  }

  lemma PercentileMSMono(sorted: seq<int>, p: real, q: real)
    requires Ascending(sorted) && p <= q
    ensures PercentileMS(sorted, p) <= PercentileMS(sorted, q)
  {
    PercentileMonotone(sorted, p, q);
    ToMSMono(Percentile(sorted, p), Percentile(sorted, q));
  }

  /** The statistics of some durations, in whatever order they were collected. */
  ghost function StatsOf(vals: seq<int>): Stats {
    StatsFor(SortInts(vals))
  }

  lemma EndsOfSorted(vals: seq<int>, sorted: seq<int>)
    requires vals != [] && Ascending(sorted) && multiset(sorted) == multiset(vals) && |sorted| == |vals|
    ensures sorted[0] == Min(vals) && sorted[|sorted| - 1] == Max(vals)
  {
    forall x ensures x in sorted <==> x in vals { assert x in multiset(sorted) <==> x in multiset(vals); }
    assert sorted[0] in vals && sorted[|sorted| - 1] in vals;
  }

  lemma PercentilesInOrder(sorted: seq<int>)
    requires Ascending(sorted) && sorted != []
    ensures var t := StatsFor(sorted); t.min <= t.p50 <= t.p95 <= t.p99 <= t.p999 <= t.max
  {
    PercentileMSMono(sorted, 50.0, 95.0);
    PercentileMSMono(sorted, 95.0, 99.0);
    PercentileMSMono(sorted, 99.0, 99.9);
    ToMSMono(sorted[0], Percentile(sorted, 50.0));
    ToMSMono(Percentile(sorted, 99.9), sorted[|sorted| - 1]);
  }

  /** Each percentile of the summary is that of the least duration covering its share of all of them. */
  lemma StatsCover(vals: seq<int>) returns (v50: int, v95: int, v99: int, v999: int)
    requires vals != []
    ensures var t := StatsOf(vals);
      t.p50 == ToMS(v50) && t.p95 == ToMS(v95) && t.p99 == ToMS(v99) && t.p999 == ToMS(v999)
    ensures IsPercentile(vals, 50.0, v50) && IsPercentile(vals, 95.0, v95)
    ensures IsPercentile(vals, 99.0, v99) && IsPercentile(vals, 99.9, v999)
  {
    var sorted := SortInts(vals);
    v50, v95 := Percentile(sorted, 50.0), Percentile(sorted, 95.0);
    v99, v999 := Percentile(sorted, 99.0), Percentile(sorted, 99.9);
    PercentileOfAnyOrder(vals, sorted, 50.0);
    PercentileOfAnyOrder(vals, sorted, 95.0);
    PercentileOfAnyOrder(vals, sorted, 99.0);
    PercentileOfAnyOrder(vals, sorted, 99.9);
  }

  lemma MeanInOrder(sorted: seq<int>)
    requires Ascending(sorted) && sorted != []
    ensures var t := StatsFor(sorted); t.min <= t.mean <= t.max
  {
    MeanBetween(sorted, sorted[0], sorted[|sorted| - 1]);
    ToMSMono(sorted[0], MeanOf(sorted));
    ToMSMono(MeanOf(sorted), sorted[|sorted| - 1]);
  }

  lemma MeanOfPerm(s: seq<int>, t: seq<int>)
    requires multiset(s) == multiset(t) && |s| == |t|
    ensures MeanOf(s) == MeanOf(t)
  {
    SumPerm(s, t, Same);
  }

  /**
   They are the smallest and the largest, with the percentiles in order between them and the mean
   of all of them between them too; cutting to microseconds keeps the order.
   */
  lemma StatsOrdered(vals: seq<int>)
    requires vals != []
    ensures var t := StatsOf(vals);
      && t.n == |vals| && t.min == ToMS(Min(vals)) && t.max == ToMS(Max(vals)) && t.mean == ToMS(MeanOf(vals))
      && t.min <= t.p50 <= t.p95 <= t.p99 <= t.p999 <= t.max && t.min <= t.mean <= t.max
  {
    var sorted := SortInts(vals);
    EndsOfSorted(vals, sorted);
    PercentilesInOrder(sorted);
    MeanInOrder(sorted);
    MeanOfPerm(sorted, vals);
  }

  method StatsOfSorted(sorted: seq<int>) returns (t: Stats)
    ensures t == StatsFor(sorted)
  {
    if |sorted| == 0 { return Stats(0, 0.0, 0.0, 0.0, 0.0, 0.0, 0.0, 0.0); }
    var m := Mean(sorted);
    t := Stats(|sorted|, ToMS(sorted[0]), PercentileMS(sorted, 50.0), PercentileMS(sorted, 95.0),
               PercentileMS(sorted, 99.0), PercentileMS(sorted, 99.9), ToMS(sorted[|sorted| - 1]), ToMS(m));
  }

  method TimedStats(samples: seq<Sample>) returns (t: Stats)
    ensures t == StatsOf(Pick(samples, IsTimed, Latency))
  {
    var all := AllLatencies(samples);
    SortedOnce(all[..], SortInts(Pick(samples, IsTimed, Latency)));
    t := StatsOfSorted(all[..]);
  }

  method AcceptedStats(samples: seq<Sample>, ok: int) returns (t: Stats)
    ensures t == StatsOf(Pick(samples, Answered(ok), Latency))
  {
    var acc := Latencies(samples, ok);
    SortedOnce(acc[..], SortInts(Pick(samples, Answered(ok), Latency)));
    t := StatsOfSorted(acc[..]);
  }

  datatype Phase = Phase(
    total: nat, accepted: nat, transport: nat, nonOK: int, failed: int,
    all: Stats, acc: Stats, errors: map<string, nat>, statuses: map<string, nat>)

  lemma BumpKey(m: map<string, nat>, k: ErrKind)
    ensures forall l :: Get(Bump(m, Key(k)), Key(l)) == Get(m, Key(l)) + if l == k then 1 else 0
  {
    forall l | Key(l) == Key(k) ensures l == k { KeyInjective(l, k); }
  }

  lemma BumpItoa(m: map<string, nat>, c: int)
    ensures forall d :: Get(Bump(m, Itoa(c)), Itoa(d)) == Get(m, Itoa(d)) + if d == c then 1 else 0
  {
    forall d | Itoa(d) == Itoa(c) ensures d == c { ItoaInjective(d, c); }
  }

  /** The loop of summarize(), keyed by text. */
  method TallyText(w: seq<Sample>) returns (statuses: map<string, nat>, errs: map<string, nat>, transport: nat)
    requires forall i :: 0 <= i < |w| ==> w[i].inWindow
    ensures forall c :: Get(statuses, Itoa(c)) == Count(w, Answered(c))
    ensures forall k :: Get(errs, Key(k)) == Count(w, FailedAs(k))
    ensures transport == Count(w, Failed)
  {
    statuses, errs, transport := map[], map[], 0;
    for i := 0 to |w|
      invariant forall c :: Get(statuses, Itoa(c)) == Count(w[..i], Answered(c))
      invariant forall k :: Get(errs, Key(k)) == Count(w[..i], FailedAs(k))
      invariant transport == Count(w[..i], Failed)
    {
      var s := w[i];
      forall c
        ensures Count(w[..i + 1], Answered(c)) == Count(w[..i], Answered(c)) + (if Answered(c)(s) then 1 else 0)
      {
        CountTake(w, i, Answered(c));
      }
      forall k
        ensures Count(w[..i + 1], FailedAs(k)) == Count(w[..i], FailedAs(k)) + (if FailedAs(k)(s) then 1 else 0)
      {
        CountTake(w, i, FailedAs(k));
      }
      CountTake(w, i, Failed);
      if s.err.Some? {
        BumpKey(errs, Classify(s.err.value));
        errs := Bump(errs, Key(Classify(s.err.value)));
        transport := transport + 1;
      } else {
        BumpItoa(statuses, s.status);
        statuses := Bump(statuses, Itoa(s.status));
      }
    }
    assert w[..|w|] == w;
  }

  method Summarize(samples: seq<Sample>, ok: int) returns (s: Phase)
    ensures s.total == Count(samples, Windowed) && s.transport == Count(samples, Failed)
    ensures s.accepted == Count(samples, Answered(ok)) == s.acc.n
    ensures s.nonOK == Count(samples, NotOk(ok)) && s.failed == s.transport + s.nonOK == s.total - s.accepted
    ensures s.all.n == s.total - Count(samples, FailedAs(ErrCapacity))
    ensures s.all == StatsOf(Pick(samples, IsTimed, Latency)) && s.acc == StatsOf(Pick(samples, Answered(ok), Latency))
    ensures forall c :: Get(s.statuses, Itoa(c)) == Count(samples, Answered(c))
    ensures forall k :: Get(s.errors, Key(k)) == Count(samples, FailedAs(k))
    ensures s.transport == Get(s.errors, Key(ErrTimeout)) + Get(s.errors, Key(ErrRefused)) +
      Get(s.errors, Key(ErrResetEOF)) + Get(s.errors, Key(ErrCapacity)) + Get(s.errors, Key(ErrOther))
  {
    var w := Window(samples);
    WindowCounts(samples, ok);
    var statuses, errs, transport := TallyText(w);
    var accepted := Get(statuses, Itoa(ok));
    var nonOK := |w| - transport - accepted;
    WindowSplits(samples, ok);
    KindsSplit(samples);
    TimedSplits(samples);
    PickLength(samples, Answered(ok), Latency);
    var all := TimedStats(samples);
    var acc := AcceptedStats(samples, ok);
    s := Phase(|w|, accepted, transport, nonOK, transport + nonOK, all, acc, errs, statuses);
  }

  /** One phase summarised both ways gives the same numbers, whatever the samples. */
  method BothAgree(samples: seq<Sample>, ok: int) returns (r: Report, s: Phase)
    ensures r.total == s.total && r.accepted == s.accepted && r.errTotal == s.transport && r.nonOK == s.nonOK
    ensures forall k :: Get(r.errs, k) == Get(s.errors, Key(k))
    ensures forall c :: Get(r.statuses, c) == Get(s.statuses, Itoa(c))
  {
    r := PrintReport(samples, ok);
    s := Summarize(samples, ok);
  }
}
