/** What the samples of an open-loop run say: the workers' answers and one over-capacity sample per dropped slot. */
module OpenLoopSamples {
  import opened Wrappers
  import opened Sums
  import opened Samples
  import opened OpenLoopMachine
  import opened OpenLoopTheorems

  // ---------------------------------------------------------------- what happened

  /** What one step adds to the workers' lists: the answer, with its job's slot written in. */
  function Recorded(s: State, e: Event): seq<Sample> {
    if e.Record? && e.w < |s.workers| && s.workers[e.w].pc.Holding?
    then [e.s.(scheduledAt := Some(s.workers[e.w].pc.due))] else []
  }

  /** The answers the workers recorded, in the order of the run. */
  function Answers(ss: seq<State>, es: seq<Event>, n: nat): seq<Sample>
    requires n <= |es| < |ss|
  {
    if n == 0 then [] else Answers(ss, es, n - 1) + Recorded(ss[n - 1], es[n - 1])
  }

  /** A slot was due and the queue had no room. */
  predicate MeetsFullQueue(c: Config, s: State, e: Event) {
    && e.LoopStep? && s.dispatcher.Looping? && Due(c, s.issued) <= s.dispatcher.tick && |s.queue| >= c.cap
  }

  /** The steps that met a full queue, in order. */
  function FullQueueSteps(c: Config, ss: seq<State>, es: seq<Event>, n: nat): (r: seq<nat>)
    requires n <= |es| < |ss|
    ensures forall i :: 0 <= i < |r| ==> r[i] < n && MeetsFullQueue(c, ss[r[i]], es[r[i]])
  {
    if n == 0 then []
    else FullQueueSteps(c, ss, es, n - 1) + if MeetsFullQueue(c, ss[n - 1], es[n - 1]) then [n - 1] else []
  }

  /** A request that never left the harness: only its slot, the time it was given up and the cap error. */
  predicate OverCapacity(x: Sample, due: int, at: int) {
    && x.err.Some? && x.err.value.inFlightCap && Classify(x.err.value) == ErrCapacity
    && x.latency == 0 && x.status == 0 && x.throttle.NoThrottle? && !x.connReused
    && x.scheduledAt == Some(due) && x.at == at && !x.Timed()
  }

  ghost predicate DroppedAre(c: Config, ss: seq<State>, es: seq<Event>, n: nat)
    requires n <= |es| < |ss|
  {
    var steps := FullQueueSteps(c, ss, es, n);
    && |ss[n].dropped| == |steps|
    && forall i :: 0 <= i < |steps| ==>
         ss[steps[i]].dispatcher.Looping? &&
         OverCapacity(ss[n].dropped[i], Due(c, ss[steps[i]].issued), ss[steps[i]].dispatcher.tick)
  }

  // ---------------------------------------------------------------- what is in the lists

  lemma FlattenSnoc(ws: seq<Worker>, y: Worker)
    ensures Flatten(ws + [y]) == Flatten(ws) + y.out
  {
    assert (ws + [y])[..|ws|] == ws;
  }

  lemma MoreAtTheEnd(s: seq<Sample>, t: seq<Sample>, more: seq<Sample>)
    ensures multiset(s + (t + more)) == multiset(s + t) + multiset(more)
  {
    assert s + (t + more) == (s + t) + more;
  }

  lemma MoreInTheMiddle(s: seq<Sample>, s': seq<Sample>, t: seq<Sample>, more: seq<Sample>)
    requires multiset(s') == multiset(s) + multiset(more)
    ensures multiset(s' + t) == multiset(s + t) + multiset(more)
  {}

  lemma {:induction false} FlattenUpdate(ws: seq<Worker>, w: nat, y: Worker, more: seq<Sample>)
    requires w < |ws| && y.out == ws[w].out + more
    ensures multiset(Flatten(ws[w := y])) == multiset(Flatten(ws)) + multiset(more)
  {
    var init, last := ws[..|ws| - 1], ws[|ws| - 1];
    assert ws == init + [last];
    FlattenSnoc(init, last);
    if w == |init| {
      assert ws[w := y] == init + [y];
      FlattenSnoc(init, y);
      MoreAtTheEnd(Flatten(init), last.out, more);
    } else {
      assert ws[w := y] == init[w := y] + [last];
      FlattenSnoc(init[w := y], last);
      FlattenUpdate(init, w, y, more);
      MoreInTheMiddle(Flatten(init), Flatten(init[w := y]), last.out, more);
    }
  }

  lemma {:induction false} NoneRecorded(n: nat)
    ensures Flatten(seq(n, i => Worker(Idle, []))) == []
  {
    if n > 0 {
      var ws := seq(n, i => Worker(Idle, []));
      assert ws[..n - 1] == seq(n - 1, i => Worker(Idle, []));
      NoneRecorded(n - 1);
    }
  }

  /** A worker's step replaces that worker, with at most one more answer in its list. */
  lemma WorkerStep(c: Config, s: State, e: Event) returns (y: Worker)
    requires Step(c, s, e).Some? && OfWorker(e)
    ensures e.w < |s.workers| && Step(c, s, e).value.workers == s.workers[e.w := y]
    ensures y.out == s.workers[e.w].out + Recorded(s, e)
  {
    y := Step(c, s, e).value.workers[e.w];
  }

  lemma OtherStep(c: Config, s: State, e: Event)
    requires Step(c, s, e).Some? && !OfWorker(e)
    ensures Step(c, s, e).value.workers == s.workers && Recorded(s, e) == []
  {}

  lemma StepRecords(c: Config, s: State, e: Event)
    requires Step(c, s, e).Some?
    ensures multiset(Flatten(Step(c, s, e).value.workers)) == multiset(Flatten(s.workers)) + multiset(Recorded(s, e))
  {
    if OfWorker(e) {
      var y := WorkerStep(c, s, e);
      FlattenUpdate(s.workers, e.w, y, Recorded(s, e));
    } else {
      OtherStep(c, s, e);
    }
  }

  lemma StepDrops(c: Config, s: State, e: Event)
    requires Step(c, s, e).Some?
    ensures var s' := Step(c, s, e).value;
      if MeetsFullQueue(c, s, e) then
        && |s'.dropped| == |s.dropped| + 1 && s'.dropped[..|s.dropped|] == s.dropped
        && OverCapacity(s'.dropped[|s.dropped|], Due(c, s.issued), s.dispatcher.tick)
      else s'.dropped == s.dropped
  {}

  lemma DropNext(c: Config, ss: seq<State>, es: seq<Event>, n: nat)
    requires 0 < n <= |es| < |ss| && DroppedAre(c, ss, es, n - 1)
    requires var s, s', e := ss[n - 1], ss[n], es[n - 1];
      if MeetsFullQueue(c, s, e) then
        && |s'.dropped| == |s.dropped| + 1 && s'.dropped[..|s.dropped|] == s.dropped
        && OverCapacity(s'.dropped[|s.dropped|], Due(c, s.issued), s.dispatcher.tick)
      else s'.dropped == s.dropped
    ensures DroppedAre(c, ss, es, n)
  {
    var before := FullQueueSteps(c, ss, es, n - 1);
    if MeetsFullQueue(c, ss[n - 1], es[n - 1]) {
      forall i | 0 <= i < |before| ensures ss[n].dropped[i] == ss[n - 1].dropped[i] {
        assert ss[n].dropped[..|before|][i] == ss[n].dropped[i];
      }
    }
  }

  lemma {:induction false} ListsInEveryRun(c: Config, ss: seq<State>, es: seq<Event>, n: nat)
    requires FromStart(c, ss, es) && n <= |es|
    ensures multiset(Flatten(ss[n].workers)) == multiset(Answers(ss, es, n))
    ensures DroppedAre(c, ss, es, n)
  {
    if n == 0 {
      NoneRecorded(c.workers);
    } else {
      ListsInEveryRun(c, ss, es, n - 1);
      assert Follows(c, ss, es, n - 1);
      StepRecords(c, ss[n - 1], es[n - 1]);
      StepDrops(c, ss[n - 1], es[n - 1]);
      DropNext(c, ss, es, n);
    }
  }

  /**
   At the end of every run the samples are exactly the workers' answers with their slots written
   in and nothing else changed, and one over-capacity sample for each slot that met a full queue.
   */
  lemma SamplesAre(c: Config, ss: seq<State>, es: seq<Event>)
    requires FromStart(c, ss, es) && ss[|es|].dispatcher.Finished?
    ensures var s := ss[|es|];
      multiset(s.samples) == multiset(Answers(ss, es, |es|)) + multiset(s.dropped) && DroppedAre(c, ss, es, |es|)
  {
    ListsInEveryRun(c, ss, es, |es|);
    InvInEveryRun(c, ss, es, |es|);
  }

  // ---------------------------------------------------------------- counting them

  /** Over capacity and sent, or given up, in [t0, t0 + d). */
  function CapIn(t0: int, d: int): Sample -> bool {
    (x: Sample) => x.err.Some? && Classify(x.err.value) == ErrCapacity && t0 <= x.at < t0 + d
  }

  /** Steps whose tick lies in [t0, t0 + d). */
  function TicksIn(ss: seq<State>, steps: seq<nat>, t0: int, d: int): nat
    requires forall i :: 0 <= i < |steps| ==> steps[i] < |ss| && ss[steps[i]].dispatcher.Looping?
  {
    if steps == [] then 0
    else
      var last := steps[|steps| - 1];
      TicksIn(ss, steps[..|steps| - 1], t0, d) + if t0 <= ss[last].dispatcher.tick < t0 + d then 1 else 0
  }

  lemma {:induction false} CountDrops(c: Config, ss: seq<State>, steps: seq<nat>, xs: seq<Sample>, t0: int, d: int)
    requires |xs| == |steps| && forall i :: 0 <= i < |steps| ==> steps[i] < |ss| && ss[steps[i]].dispatcher.Looping?
    requires forall i :: 0 <= i < |steps| ==>
      OverCapacity(xs[i], Due(c, ss[steps[i]].issued), ss[steps[i]].dispatcher.tick)
    ensures Count(xs, CapIn(t0, d)) == TicksIn(ss, steps, t0, d)
  {
    if steps != [] {
      CountDrops(c, ss, steps[..|steps| - 1], xs[..|xs| - 1], t0, d);
    }
  }

  /**
   The over-capacity samples of any stretch of time: one for each slot that met a full queue then,
   and the answers that carry that error themselves.
   */
  lemma CapacityCount(c: Config, ss: seq<State>, es: seq<Event>, t0: int, d: int)
    requires FromStart(c, ss, es) && ss[|es|].dispatcher.Finished?
    ensures var steps := FullQueueSteps(c, ss, es, |es|);
      Count(ss[|es|].samples, CapIn(t0, d)) ==
      TicksIn(ss, steps, t0, d) + Count(Answers(ss, es, |es|), CapIn(t0, d))
  {
    var answers, s := Answers(ss, es, |es|), ss[|es|];
    SamplesAre(c, ss, es);
    CountDrops(c, ss, FullQueueSteps(c, ss, es, |es|), s.dropped, t0, d);
    SumPerm(s.samples, answers + s.dropped, Ind(CapIn(t0, d)));
    SumConcat(answers, s.dropped, Ind(CapIn(t0, d)));
  }

  // ---------------------------------------------------------------- after markWindow

  function Marked(samples: seq<Sample>, t0: int, d: int): (r: seq<Sample>)
    ensures |r| == |samples|
    ensures forall i :: 0 <= i < |r| ==> r[i] == samples[i].(inWindow := t0 <= samples[i].at < t0 + d)
  {
    Map(samples, (x: Sample) => x.(inWindow := t0 <= x.at < t0 + d))
  }

  lemma {:induction false} MarkedCount(samples: seq<Sample>, t0: int, d: int)
    ensures Count(Marked(samples, t0, d), FailedAs(ErrCapacity)) == Count(samples, CapIn(t0, d))
  {
    if samples != [] {
      MarkedCount(samples[..|samples| - 1], t0, d);
      assert Marked(samples, t0, d)[..|samples| - 1] == Marked(samples[..|samples| - 1], t0, d);
    }
  }

  /** The over-capacity count of the report of a finished run. */
  lemma ReportedOverCapacity(c: Config, ss: seq<State>, es: seq<Event>, t0: int, d: int)
    requires FromStart(c, ss, es) && ss[|es|].dispatcher.Finished?
    ensures Count(Marked(ss[|es|].samples, t0, d), FailedAs(ErrCapacity)) ==
            TicksIn(ss, FullQueueSteps(c, ss, es, |es|), t0, d) + Count(Answers(ss, es, |es|), CapIn(t0, d))
  {
    MarkedCount(ss[|es|].samples, t0, d);
    CapacityCount(c, ss, es, t0, d);
  }

  // ---------------------------------------------------------------- corrected latencies

  /** From the intended slot to the completion. */
  function FromSlot(x: Sample): int {
    if x.scheduledAt.Some? then x.at + x.latency - x.scheduledAt.value else x.latency
  }

  lemma {:induction false} CorrectedIsFromSlot(samples: seq<Sample>)
    requires forall i :: 0 <= i < |samples| ==> Unclipped(samples[i])
    ensures Pick(samples, IsTimed, Corrected) == Pick(samples, IsTimed, FromSlot)
  {
    if samples != [] { CorrectedIsFromSlot(samples[..|samples| - 1]); }
  }

  /**
   In every finished run the corrected latencies of the measured window are the times from each
   kept request's intended slot to its completion.
   */
  lemma CorrectedInEveryRun(c: Config, ss: seq<State>, es: seq<Event>, t0: int, d: int)
    requires FromStart(c, ss, es) && ss[|es|].dispatcher.Finished? && c.workers >= 1
    ensures var marked := Marked(ss[|es|].samples, t0, d);
      && (forall i :: 0 <= i < |marked| ==> marked[i].scheduledAt.Some?)
      && Pick(marked, IsTimed, Corrected) == Pick(marked, IsTimed, FromSlot)
  {
    EveryRunConserves(c, ss, es);
    var marked := Marked(ss[|es|].samples, t0, d);
    forall i | 0 <= i < |marked| ensures Unclipped(marked[i]) { assert Unclipped(ss[|es|].samples[i]); }
    CorrectedIsFromSlot(marked);
  }
}
