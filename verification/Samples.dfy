/**
 The load harness's samples (cmd/loadtest/stats.go): what is counted, what is timed, and how
 the latency lists are collected.
 */
module Samples {
  import opened Wrappers
  import opened Sums
  import opened Sorting
  import opened Percentiles

  /** What classify can observe of a Go error. */
  datatype Error = Error(inFlightCap: bool, netTimeout: bool, msg: string)

  datatype ErrKind = ErrTimeout | ErrRefused | ErrResetEOF | ErrCapacity | ErrOther

  datatype Throttle = NoThrottle | IPLimiter | AccountLockout

  /** `scheduledAt` is None where the source has the zero time. */
  datatype Sample = Sample(
    at: int, ip: string, latency: int, status: int, err: Option<Error>,
    throttle: Throttle, scheduledAt: Option<int>, inWindow: bool, connReused: bool)
  {
    /** The least time from the slot that reaches the moment the sample went out. */
    function SchedLag(): (lag: int)
      ensures lag >= 0 && (scheduledAt.None? ==> lag == 0)
      ensures scheduledAt.Some? ==> scheduledAt.value + lag >= at && (lag == 0 || scheduledAt.value + lag == at)
    {
      if scheduledAt.None? then 0
      else if at - scheduledAt.value > 0 then at - scheduledAt.value
      else 0
    }

    predicate Timed() {
      !(err.Some? && err.value.inFlightCap)
    }
  }

  predicate ContainsAt(s: string, sub: string, i: nat) {
    i + |sub| <= |s| && s[i..i + |sub|] == sub
  }

  predicate Contains(s: string, sub: string) {
    exists i :: 0 <= i <= |s| && ContainsAt(s, sub, i)
  }

  function Classify(e: Error): ErrKind {
    if e.inFlightCap then ErrCapacity
    else if e.netTimeout then ErrTimeout
    else if Contains(e.msg, "connection refused") then ErrRefused
    else if Contains(e.msg, "EOF") then ErrResetEOF
    else if Contains(e.msg, "connection reset") then ErrResetEOF
    else if Contains(e.msg, "broken pipe") then ErrResetEOF
    else ErrOther
  }

  /** sub stands somewhere in s. */
  ghost predicate Occurs(s: string, sub: string) {
    exists before: string, after: string :: s == before + sub + after
  }

  lemma ContainsIff(s: string, sub: string)
    ensures Contains(s, sub) <==> Occurs(s, sub)
  {
    if Contains(s, sub) {
      var i :| 0 <= i <= |s| && ContainsAt(s, sub, i);
      assert s == s[..i] + sub + s[i + |sub|..];
    }
    if Occurs(s, sub) {
      var before: string, after: string :| s == before + sub + after;
      assert s[|before|..|before| + |sub|] == sub;
      assert ContainsAt(s, sub, |before|);
    }
  }

  ghost predicate ConnectionLost(msg: string) {
    Occurs(msg, "EOF") || Occurs(msg, "connection reset") || Occurs(msg, "broken pipe")
  }

  /** Which errors get which kind; the cap comes before a timeout, and both before anything in the message. */
  lemma ClassifyIs(e: Error)
    ensures Classify(e) == ErrCapacity <==> e.inFlightCap
    ensures Classify(e) == ErrTimeout <==> !e.inFlightCap && e.netTimeout
    ensures Classify(e) == ErrRefused <==> !e.inFlightCap && !e.netTimeout && Occurs(e.msg, "connection refused")
    ensures Classify(e) == ErrResetEOF <==>
      !e.inFlightCap && !e.netTimeout && !Occurs(e.msg, "connection refused") && ConnectionLost(e.msg)
    ensures Classify(e) == ErrOther <==>
      !e.inFlightCap && !e.netTimeout && !Occurs(e.msg, "connection refused") && !ConnectionLost(e.msg)
  {
    ContainsIff(e.msg, "connection refused");
    ContainsIff(e.msg, "EOF");
    ContainsIff(e.msg, "connection reset");
    ContainsIff(e.msg, "broken pipe");
  }

  // ---------------------------------------------------------------- collecting latencies

  /** The values of the kept samples, in order. */
  function Pick(s: seq<Sample>, keep: Sample -> bool, val: Sample -> int): seq<int> {
    if s == [] then []
    else
      var last := s[|s| - 1];
      Pick(s[..|s| - 1], keep, val) + (if keep(last) then [val(last)] else [])
  }

  lemma PickTake(s: seq<Sample>, k: nat, keep: Sample -> bool, val: Sample -> int)
    requires k < |s|
    ensures Pick(s[..k + 1], keep, val) == Pick(s[..k], keep, val) + (if keep(s[k]) then [val(s[k])] else [])
  {
    assert s[..k + 1][..k] == s[..k];
  }

  const IsTimed: Sample -> bool := (s: Sample) => s.inWindow && s.Timed()
  const Latency: Sample -> int := (s: Sample) => s.latency
  const Corrected: Sample -> int := (s: Sample) => s.latency + s.SchedLag()

  function Answered(status: int): Sample -> bool {
    (s: Sample) => s.inWindow && s.err.None? && s.status == status
  }

  /** The shape shared by the collectors: keep, project, sort. */
  method Collect(samples: seq<Sample>, keep: Sample -> bool, val: Sample -> int) returns (sorted: array<int>)
    ensures fresh(sorted) && Ascending(sorted[..]) && multiset(sorted[..]) == multiset(Pick(samples, keep, val))
    ensures sorted.Length == |Pick(samples, keep, val)|
  {
    var out: seq<int> := [];
    for i := 0 to |samples|
      invariant out == Pick(samples[..i], keep, val)
    {
      PickTake(samples, i, keep, val);
      if keep(samples[i]) { out := out + [val(samples[i])]; }
    }
    assert samples[..|samples|] == samples;
    sorted := new int[|out|](i requires 0 <= i < |out| => out[i]);
    assert sorted[..] == out;
    SortDurations(sorted);
  }

  method AllLatencies(samples: seq<Sample>) returns (sorted: array<int>)
    ensures fresh(sorted) && Ascending(sorted[..]) && multiset(sorted[..]) == multiset(Pick(samples, IsTimed, Latency))
  {
    sorted := Collect(samples, IsTimed, Latency);
  }

  /** What a user in line sees: completion minus slot for a request sent at or after its slot, else the latency. */
  function Waited(s: Sample): int {
    match s.scheduledAt
    case None => s.latency
    case Some(slot) => if slot <= s.at then s.at + s.latency - slot else s.latency
  }

  lemma {:induction false} CorrectedIsWaited(s: seq<Sample>)
    ensures Pick(s, IsTimed, Corrected) == Pick(s, IsTimed, Waited)
  {
    if s != [] { CorrectedIsWaited(s[..|s| - 1]); }
  }

  method CorrectedLatencies(samples: seq<Sample>) returns (sorted: array<int>)
    ensures fresh(sorted) && Ascending(sorted[..])
    ensures multiset(sorted[..]) == multiset(Pick(samples, IsTimed, Corrected))
    ensures multiset(sorted[..]) == multiset(Pick(samples, IsTimed, Waited))
  {
    CorrectedIsWaited(samples);
    sorted := Collect(samples, IsTimed, Corrected);
  }

  method Latencies(samples: seq<Sample>, status: int) returns (sorted: array<int>)
    ensures fresh(sorted) && Ascending(sorted[..])
    ensures multiset(sorted[..]) == multiset(Pick(samples, Answered(status), Latency))
    ensures sorted.Length == |Pick(samples, Answered(status), Latency)|
  {
    sorted := Collect(samples, Answered(status), Latency);
  }

  lemma {:induction false} PickPointwise(s: seq<Sample>)
    ensures |Pick(s, IsTimed, Latency)| == |Pick(s, IsTimed, Corrected)|
    ensures forall i :: 0 <= i < |Pick(s, IsTimed, Latency)| ==>
      Pick(s, IsTimed, Latency)[i] <= Pick(s, IsTimed, Corrected)[i]
  {
    if s != [] { PickPointwise(s[..|s| - 1]); }
  }

  /**
   Measuring from the intended slot never makes a percentile look better: at every p the value
   from the corrected latencies is at least the one from all latencies, whatever the two sorts do.
   */
  lemma CorrectedDominates(s: seq<Sample>, all: seq<int>, corrected: seq<int>, p: real)
    requires Ascending(all) && multiset(all) == multiset(Pick(s, IsTimed, Latency))
    requires Ascending(corrected) && multiset(corrected) == multiset(Pick(s, IsTimed, Corrected))
    ensures Percentile(all, p) <= Percentile(corrected, p)
  {
    PickPointwise(s);
    PercentileDomination(Pick(s, IsTimed, Latency), Pick(s, IsTimed, Corrected), all, corrected, p);
  }

  /** Every request that counts went out after its slot. */
  ghost predicate AllLate(s: seq<Sample>) {
    forall i :: 0 <= i < |s| && IsTimed(s[i]) ==> s[i].scheduledAt.Some? && s[i].scheduledAt.value < s[i].at
  }

  lemma {:induction false} PickStrict(s: seq<Sample>)
    requires AllLate(s)
    ensures |Pick(s, IsTimed, Latency)| == |Pick(s, IsTimed, Corrected)|
    ensures forall i :: 0 <= i < |Pick(s, IsTimed, Latency)| ==>
      Pick(s, IsTimed, Latency)[i] < Pick(s, IsTimed, Corrected)[i]
  {
    if s != [] { PickStrict(s[..|s| - 1]); }
  }

  /** When all of them did, the correction raises every percentile. */
  lemma CorrectedRaises(s: seq<Sample>, all: seq<int>, corrected: seq<int>, p: real)
    requires AllLate(s) && Pick(s, IsTimed, Latency) != []
    requires Ascending(all) && multiset(all) == multiset(Pick(s, IsTimed, Latency))
    requires Ascending(corrected) && multiset(corrected) == multiset(Pick(s, IsTimed, Corrected))
    ensures Percentile(all, p) < Percentile(corrected, p)
  {
    PickStrict(s);
    PercentileStrictness(Pick(s, IsTimed, Latency), Pick(s, IsTimed, Corrected), all, corrected, p);
  }

  /** The two headline distributions of an open-loop phase, compared at every percentile. */
  method BothLatencies(samples: seq<Sample>) returns (all: array<int>, corrected: array<int>)
    ensures fresh(all) && Ascending(all[..]) && multiset(all[..]) == multiset(Pick(samples, IsTimed, Latency))
    ensures fresh(corrected) && Ascending(corrected[..])
    ensures multiset(corrected[..]) == multiset(Pick(samples, IsTimed, Waited))
    ensures forall p :: Percentile(all[..], p) <= Percentile(corrected[..], p)
  {
    all := AllLatencies(samples);
    corrected := CorrectedLatencies(samples);
    forall p ensures Percentile(all[..], p) <= Percentile(corrected[..], p) {
      CorrectedDominates(samples, all[..], corrected[..], p);
    }
  }

  // ---------------------------------------------------------------- counting

  function Ind(p: Sample -> bool): Sample -> int {
    (s: Sample) => if p(s) then 1 else 0
  }

  /** How many samples satisfy p. */
  function Count(s: seq<Sample>, p: Sample -> bool): int {
    Sum(s, Ind(p))
  }

  lemma {:induction false} PickLength(s: seq<Sample>, keep: Sample -> bool, val: Sample -> int)
    ensures |Pick(s, keep, val)| == Count(s, keep)
  {
    if s != [] { PickLength(s[..|s| - 1], keep, val); }
  }

  /** Counting splits over two disjoint cases. */
  lemma CountSplits(s: seq<Sample>, p: Sample -> bool, q: Sample -> bool, r: Sample -> bool)
    requires forall i :: 0 <= i < |s| ==> (p(s[i]) <==> q(s[i]) || r(s[i])) && !(q(s[i]) && r(s[i]))
    ensures Count(s, p) == Count(s, q) + Count(s, r)
  {
    SumAdd(s, Ind(q), Ind(r), Ind(p));
  }

  lemma CountSame(s: seq<Sample>, p: Sample -> bool, q: Sample -> bool)
    requires forall i :: 0 <= i < |s| ==> (p(s[i]) <==> q(s[i]))
    ensures Count(s, p) == Count(s, q)
  {
    SumEq(s, Ind(p), Ind(q));
  }

  lemma CountTake(s: seq<Sample>, k: nat, p: Sample -> bool)
    requires k < |s|
    ensures Count(s[..k + 1], p) == Count(s[..k], p) + (if p(s[k]) then 1 else 0)
  {
    SumTake(s, k, Ind(p));
  }

  lemma {:induction false} CountRange(s: seq<Sample>, p: Sample -> bool)
    ensures 0 <= Count(s, p) <= |s|
    ensures (exists i :: 0 <= i < |s| && p(s[i])) ==> Count(s, p) >= 1
  {
    if s != [] {
      var t := s[..|s| - 1];
      CountRange(t, p);
      assert forall i :: 0 <= i < |t| ==> t[i] == s[i];
      if exists i :: 0 <= i < |s| && p(s[i]) {
        var i :| 0 <= i < |s| && p(s[i]);
        assert i < |t| ==> p(t[i]);
      }
    }
  }

  const Windowed: Sample -> bool := (s: Sample) => s.inWindow
  const Failed: Sample -> bool := (s: Sample) => s.inWindow && s.err.Some?

  function FailedAs(k: ErrKind): Sample -> bool {
    (s: Sample) => s.inWindow && s.err.Some? && Classify(s.err.value) == k
  }

  function NotOk(ok: int): Sample -> bool {
    (s: Sample) => s.inWindow && s.err.None? && s.status != ok
  }

  /** Every windowed sample is a transport error, accepted, or answered with another status. */
  lemma WindowSplits(s: seq<Sample>, ok: int)
    ensures Count(s, Windowed) == Count(s, Failed) + Count(s, Answered(ok)) + Count(s, NotOk(ok))
  {
    var answered: Sample -> bool := (x: Sample) => x.inWindow && x.err.None?;
    CountSplits(s, Windowed, Failed, answered);
    CountSplits(s, answered, Answered(ok), NotOk(ok));
  }

  /** The error kinds partition the transport errors. */
  lemma KindsSplit(s: seq<Sample>)
    ensures Count(s, Failed) == Count(s, FailedAs(ErrTimeout)) + Count(s, FailedAs(ErrRefused)) +
      Count(s, FailedAs(ErrResetEOF)) + Count(s, FailedAs(ErrCapacity)) + Count(s, FailedAs(ErrOther))
  {
    var k1: Sample -> bool := (x: Sample) => x.inWindow && x.err.Some? && Classify(x.err.value) != ErrTimeout;
    var k2: Sample -> bool :=
      (x: Sample) => x.inWindow && x.err.Some? && Classify(x.err.value) !in {ErrTimeout, ErrRefused};
    var k3: Sample -> bool :=
      (x: Sample) => x.inWindow && x.err.Some? && Classify(x.err.value) in {ErrCapacity, ErrOther};
    CountSplits(s, Failed, FailedAs(ErrTimeout), k1);
    CountSplits(s, k1, FailedAs(ErrRefused), k2);
    CountSplits(s, k2, FailedAs(ErrResetEOF), k3);
    CountSplits(s, k3, FailedAs(ErrCapacity), FailedAs(ErrOther));
  }

  /** The timed samples are all but those the in-flight cap rejected. */
  lemma TimedSplits(s: seq<Sample>)
    ensures |Pick(s, IsTimed, Latency)| == Count(s, Windowed) - Count(s, FailedAs(ErrCapacity))
  {
    PickLength(s, IsTimed, Latency);
    CountSplits(s, Windowed, IsTimed, FailedAs(ErrCapacity));
  }
}
