/**
 The sequential parts of runOpenLoop in the source's own form: the dispatcher's catch-up loop
 with the workers running between its steps, the merge of the per-worker slices, and markWindow.
 */
module OpenLoopRun {
  import opened Wrappers
  import opened Samples
  import opened OpenLoopMachine
  import opened OpenLoopTheorems
  import opened OpenLoopSamples

  /** Steps the dispatcher does not take: workers and the clock. */
  predicate Elsewhere(e: Event) {
    OfWorker(e) || e.Tick?
  }

  lemma ElsewhereKeeps(c: Config, s: State, e: Event)
    requires Step(c, s, e).Some? && Elsewhere(e)
    ensures var s' := Step(c, s, e).value;
      s'.dispatcher == s.dispatcher && s'.issued == s.issued && s'.dropped == s.dropped
  {}

  lemma NextLater(c: Config, k: nat)
    requires c.period >= 1
    ensures Due(c, k) < Due(c, k + 1)
  {
    SlotGap(c, k, k + 1);
  }

  class OpenLoop {
    const c: Config
    var st: State
    ghost var past: seq<State>
    ghost var events: seq<Event>

    ghost predicate Valid()
      reads this
    {
      FromStart(c, past, events) && past[|events|] == st
    }

    constructor (c: Config)
      ensures Valid() && this.c == c && st == Init(c)
    {
      this.c := c;
      st := Init(c);
      past, events := [Init(c)], [];
    }

    method Do(e: Event)
      requires Valid() && Step(c, st, e).Some?
      modifies this
      ensures Valid() && Some(st) == Step(c, old(st), e) && events == old(events) + [e] && past == old(past) + [st]
    {
      ghost var ss, es := Extend(c, past, events, e);
      st := Step(c, st, e).value;
      past, events := ss, es;
    }

    /** Workers and the clock go on; entries that are not possible do nothing. */
    method Others(script: seq<Event>)
      requires Valid()
      modifies this
      ensures Valid() && old(events) <= events && old(past) <= past
      ensures st.dispatcher == old(st).dispatcher && st.issued == old(st).issued && st.dropped == old(st).dropped
    {
      for i := 0 to |script|
        invariant Valid() && old(events) <= events && old(past) <= past
        invariant st.dispatcher == old(st).dispatcher && st.issued == old(st).issued && st.dropped == old(st).dropped
      {
        if Elsewhere(script[i]) && Step(c, st, script[i]).Some? {
          ElsewhereKeeps(c, st, script[i]);
          Do(script[i]);
        }
      }
    }

    /**
     One slot that is due. With room in the queue its job is the queue's newest and inFlight goes
     up; otherwise the queue stays, a never-sent sample for the slot is appended and sent goes up.
     past[|old(past)|] is the state right after the choice.
     */
    method IssueNext(between: seq<Event>)
      requires Valid() && st.dispatcher.Looping? && Due(c, st.issued) <= st.dispatcher.tick
      modifies this
      ensures Valid() && old(events) + [LoopStep] <= events && |old(past)| < |past|
      ensures st.dispatcher == old(st).dispatcher && st.issued == old(st).issued + 1
      ensures var due, room := Due(c, old(st).issued), |old(st).queue| < c.cap;
        && events[|events| - 1] == (if room then AddInFlight else AddSent)
        && past[|old(past)|].queue == (if room then old(st).queue + [due] else old(st).queue)
        && (room ==> st.dropped == old(st).dropped)
        && (!room ==>
              && |st.dropped| == |old(st).dropped| + 1 && st.dropped[..|old(st).dropped|] == old(st).dropped
              && OverCapacity(st.dropped[|old(st).dropped|], due, old(st).dispatcher.tick))
    {
      var room := |st.queue| < c.cap;
      Do(LoopStep);
      Others(between);
      if room { Do(AddInFlight); } else { Do(AddSent); }
    }

    /** The catch-up loop: it terminates because the period is positive. */
    method IssueUpTo(tick: int, between: nat -> seq<Event>)
      requires Valid() && st.dispatcher == Looping(tick) && c.period >= 1
      modifies this
      ensures Valid() && old(events) <= events
      ensures st.dispatcher == Looping(tick) && Due(c, st.issued) > tick
    {
      var due := Due(c, st.issued);
      while due <= tick
        invariant Valid() && old(events) <= events && st.dispatcher == Looping(tick) && due == Due(c, st.issued)
        decreases tick - due
      {
        var n := st.issued;
        NextLater(c, n);
        Others(between(n));
        IssueNext(between(n + 1));
        due := Due(c, n + 1);
      }
    }

    /**
     One processed tick leaves exactly the slots up to the time it read issued, however late the
     tick came.
     */
    method CatchUp(between: nat -> seq<Event>)
      requires Valid() && st.dispatcher.Selecting? && c.period >= 1
      modifies this
      ensures Valid() && old(events) <= events && st.dispatcher.Selecting?
      ensures st.issued == (old(st).now - c.start) / c.period + 1
    {
      var tick := st.now;
      Do(TickerFires);
      IssueUpTo(tick, between);
      ghost var n := |events|;
      Do(LoopStep);
      ScheduleExact(c, past, events, n);
    }

    /** Merges the workers' slices and the dropped samples once every worker has exited. */
    method MergeSamples() returns (samples: seq<Sample>)
      requires Valid() && c.workers >= 1 && st.dispatcher.Draining?
      requires forall w :: 0 <= w < |st.workers| ==> st.workers[w].pc.Exited?
      modifies this
      ensures Valid() && st.dispatcher.Finished? && samples == st.samples
      ensures |samples| == st.issued == st.sent && st.inFlight == 0
      ensures multiset(samples) == multiset(Answers(past, events, |events|)) + multiset(st.dropped)
      ensures DroppedAre(c, past, events, |events|)
    {
      samples := [];
      for w := 0 to |st.workers|
        invariant samples == Flatten(st.workers[..w])
      {
        assert st.workers[..w + 1][..w] == st.workers[..w];
        samples := samples + st.workers[w].out;
      }
      assert st.workers[..|st.workers|] == st.workers;
      samples := samples + st.dropped;
      Do(Merge);
      EveryRunConserves(c, past, events);
      SamplesAre(c, past, events);
    }
  }

  /** Flags the samples sent in [t0, t0 + d) in place and touches nothing else. */
  method MarkWindow(samples: array<Sample>, t0: int, d: int)
    modifies samples
    ensures samples[..] == Marked(old(samples[..]), t0, d)
  {
    for i := 0 to samples.Length
      invariant forall k :: 0 <= k < i ==> samples[k] == old(samples[k]).(inWindow := t0 <= old(samples[k]).at < t0 + d)
      invariant forall k :: i <= k < samples.Length ==> samples[k] == old(samples[k])
    {
      var at := samples[i].at;
      samples[i] := samples[i].(inWindow := t0 <= at && at < t0 + d);
    }
  }
}
