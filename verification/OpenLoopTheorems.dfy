/** Conservation and schedule exactness of the open-loop dispatcher, over all runs. */
module OpenLoopTheorems {
  import opened Wrappers
  import opened Sums
  import opened Samples
  import opened OpenLoopMachine

  // ---------------------------------------------------------------- where every slot is

  function Is(x: int): int -> int {
    d => if d == x then 1 else 0
  }

  function For(x: int): Sample -> int {
    (s: Sample) => if s.scheduledAt == Some(x) then 1 else 0
  }

  /** How often a worker has slot x: recorded, or in hand and not yet recorded. */
  function Carries(x: int): Worker -> int {
    (w: Worker) => Sum(w.out, For(x)) + if w.pc.Holding? && w.pc.due == x then 1 else 0
  }

  /** How often x occurs among the first n slots. */
  function SlotCount(c: Config, n: nat, x: int): int {
    if n == 0 then 0 else SlotCount(c, n - 1, x) + Is(x)(Due(c, n - 1))
  }

  /** Slot x has been issued as often as it is queued, with a worker, or dropped. */
  ghost predicate ConservedAt(c: Config, s: State, x: int) {
    Sum(s.queue, Is(x)) + Sum(s.workers, Carries(x)) + Sum(s.dropped, For(x)) == SlotCount(c, s.issued, x)
  }

  ghost predicate Conserved(c: Config, s: State) {
    forall x :: ConservedAt(c, s, x)
  }

  lemma SlotCountNext(c: Config, n: nat, x: int)
    ensures SlotCount(c, n + 1, x) == SlotCount(c, n, x) + Is(x)(Due(c, n))
  {}

  /** Issuing the next slot to one place or the other. */
  lemma IssueConserves(c: Config, s: State, t: State, due: int, at: int, x: int)
    requires ConservedAt(c, s, x) && due == Due(c, s.issued)
    requires t.issued == s.issued + 1 && t.workers == s.workers
    requires (t.queue == s.queue + [due] && t.dropped == s.dropped) ||
             (t.queue == s.queue && t.dropped == s.dropped + [NeverSent(due, at)])
    ensures ConservedAt(c, t, x)
  {
    SlotCountNext(c, s.issued, x);
    SumSnoc(s.queue, due, Is(x));
    SumSnoc(s.dropped, NeverSent(due, at), For(x));
  }

  lemma LoopConserves(c: Config, s: State, tick: int, x: int)
    requires ConservedAt(c, s, x)
    ensures ConservedAt(c, Loop(c, s, tick), x)
  {
    if Due(c, s.issued) <= tick {
      IssueConserves(c, s, Loop(c, s, tick), Due(c, s.issued), tick, x);
    }
  }

  /** Replacing one worker moves exactly what that worker carries. */
  lemma WorkerConserves(c: Config, s: State, queue: seq<int>, w: nat, y: Worker, x: int)
    requires ConservedAt(c, s, x) && w < |s.workers|
    requires Sum(queue, Is(x)) + Carries(x)(y) == Sum(s.queue, Is(x)) + Carries(x)(s.workers[w])
    ensures ConservedAt(c, WithWorker(s.(queue := queue), w, y), x)
  {
    SumUpdate(s.workers, w, y, Carries(x));
  }

  lemma SumHead(q: seq<int>, x: int)
    requires q != []
    ensures Sum(q, Is(x)) == Is(x)(q[0]) + Sum(q[1..], Is(x))
  {
    assert q == [q[0]] + q[1..];
    SumConcat([q[0]], q[1..], Is(x));
    SumSnoc([], q[0], Is(x));
    assert [] + [q[0]] == [q[0]];
  }

  lemma TakeConserves(c: Config, s: State, w: nat, x: int)
    requires ConservedAt(c, s, x) && Step(c, s, Take(w)).Some?
    ensures ConservedAt(c, Step(c, s, Take(w)).value, x)
  {
    SumHead(s.queue, x);
    WorkerConserves(c, s, s.queue[1..], w, s.workers[w].(pc := Holding(s.queue[0], s.now)), x);
  }

  lemma RecordConserves(c: Config, s: State, w: nat, r: Sample, x: int)
    requires ConservedAt(c, s, x) && Step(c, s, Record(w, r)).Some?
    ensures ConservedAt(c, Step(c, s, Record(w, r)).value, x)
  {
    var stamped := r.(scheduledAt := Some(s.workers[w].pc.due));
    SumSnoc(s.workers[w].out, stamped, For(x));
    WorkerConserves(c, s, s.queue, w, Worker(Recorded, s.workers[w].out + [stamped]), x);
  }

  lemma QuietConserves(c: Config, s: State, w: nat, pc: WorkerPc, x: int)
    requires ConservedAt(c, s, x) && w < |s.workers| && !pc.Holding? && !s.workers[w].pc.Holding?
    ensures ConservedAt(c, WithWorker(s, w, s.workers[w].(pc := pc)), x)
  {
    WorkerConserves(c, s, s.queue, w, s.workers[w].(pc := pc), x);
  }

  lemma ConservedStep(c: Config, s: State, e: Event, x: int)
    requires ConservedAt(c, s, x) && Step(c, s, e).Some?
    ensures ConservedAt(c, Step(c, s, e).value, x)
  {
    match e
    case LoopStep => LoopConserves(c, s, s.dispatcher.tick, x);
    case Take(w) => TakeConserves(c, s, w, x);
    case Record(w, r) => RecordConserves(c, s, w, r, x);
    case CountSent(w) => QuietConserves(c, s, w, Counted, x);
    case LeaveFlight(w) => QuietConserves(c, s, w, Idle, x);
    case Exit(w) => QuietConserves(c, s, w, Exited, x);
    case _ =>
  }

  // ---------------------------------------------------------------- the two counters

  /** In flight as far as the worker is concerned: from the receive to inFlight.Add(-1). */
  const Busy: Worker -> int := (w: Worker) => if w.pc.Holding? || w.pc.Recorded? || w.pc.Counted? then 1 else 0

  /** Samples of this worker that sent.Add(1) has counted. */
  const SentBy: Worker -> int := (w: Worker) => |w.out| - if w.pc.Recorded? then 1 else 0

  ghost predicate CountersOk(c: Config, s: State) {
    && |s.queue| <= c.cap && |s.workers| == c.workers
    && s.inFlight + (if s.dispatcher.Enqueued? then 1 else 0) == |s.queue| + Sum(s.workers, Busy)
    && s.sent + (if s.dispatcher.DroppedJob? then 1 else 0) == Sum(s.workers, SentBy) + |s.dropped|
  }

  /** Replacing one worker changes both sums by that worker's difference. */
  lemma CountersMove(s: State, w: nat, y: Worker)
    requires w < |s.workers|
    ensures Sum(s.workers[w := y], Busy) == Sum(s.workers, Busy) - Busy(s.workers[w]) + Busy(y)
    ensures Sum(s.workers[w := y], SentBy) == Sum(s.workers, SentBy) - SentBy(s.workers[w]) + SentBy(y)
  {
    SumUpdate(s.workers, w, y, Busy);
    SumUpdate(s.workers, w, y, SentBy);
  }

  predicate OfWorker(e: Event) {
    e.Take? || e.Record? || e.CountSent? || e.LeaveFlight? || e.Exit?
  }

  lemma CountersWorker(c: Config, s: State, e: Event)
    requires CountersOk(c, s) && Step(c, s, e).Some? && OfWorker(e)
    ensures CountersOk(c, Step(c, s, e).value)
  {
    CountersMove(s, e.w, Step(c, s, e).value.workers[e.w]);
  }

  lemma CountersDispatcher(c: Config, s: State, e: Event)
    requires CountersOk(c, s) && Step(c, s, e).Some? && !OfWorker(e)
    ensures CountersOk(c, Step(c, s, e).value)
  {}

  lemma CountersStep(c: Config, s: State, e: Event)
    requires CountersOk(c, s) && Step(c, s, e).Some?
    ensures CountersOk(c, Step(c, s, e).value)
  {
    if OfWorker(e) { CountersWorker(c, s, e); } else { CountersDispatcher(c, s, e); }
  }

  // ---------------------------------------------------------------- times

  /** No sample went out before its slot. */
  predicate NotEarly(x: Sample) {
    x.scheduledAt.Some? && x.scheduledAt.value <= x.at
  }

  predicate Dispatching(s: State) {
    s.dispatcher.Looping? || s.dispatcher.Enqueued? || s.dispatcher.DroppedJob?
  }

  /** The latest time the dispatcher has read so far is at most this. */
  function LatestTick(s: State): int {
    if Dispatching(s) then s.dispatcher.tick else s.now
  }

  predicate WorkerTimesOk(w: Worker, now: int) {
    && (w.pc.Holding? ==> w.pc.due <= w.pc.since <= now)
    && (forall i :: 0 <= i < |w.out| ==> NotEarly(w.out[i]))
  }

  ghost predicate WorkersTimesOk(s: State) {
    forall w :: 0 <= w < |s.workers| ==> WorkerTimesOk(s.workers[w], s.now)
  }

  ghost predicate DispatcherTimesOk(c: Config, s: State) {
    && c.start <= LatestTick(s) <= s.now
    && (forall i :: 0 <= i < |s.queue| ==> s.queue[i] <= s.now)
    && (forall i :: 0 <= i < |s.dropped| ==> NotEarly(s.dropped[i]))
    && (s.issued > 0 ==> Due(c, s.issued - 1) <= LatestTick(s))
  }

  ghost predicate TimesOk(c: Config, s: State) {
    DispatcherTimesOk(c, s) && WorkersTimesOk(s)
  }

  lemma DispatcherTimes(c: Config, s: State, e: Event)
    requires DispatcherTimesOk(c, s) && Step(c, s, e).Some?
    ensures DispatcherTimesOk(c, Step(c, s, e).value)
  {}

  lemma WorkerTimes(c: Config, s: State, e: Event, w: nat)
    requires DispatcherTimesOk(c, s) && Step(c, s, e).Some? && w < |s.workers| && WorkerTimesOk(s.workers[w], s.now)
    ensures var s' := Step(c, s, e).value; w < |s'.workers| && WorkerTimesOk(s'.workers[w], s'.now)
  {}

  lemma SameCrew(c: Config, s: State, e: Event)
    requires Step(c, s, e).Some?
    ensures |Step(c, s, e).value.workers| == |s.workers|
  {}

  lemma TimesStep(c: Config, s: State, e: Event)
    requires TimesOk(c, s) && Step(c, s, e).Some?
    ensures TimesOk(c, Step(c, s, e).value)
  {
    DispatcherTimes(c, s, e);
    var s' := Step(c, s, e).value;
    forall w | 0 <= w < |s'.workers| ensures WorkerTimesOk(s'.workers[w], s'.now) {
      SameCrew(c, s, e);
      WorkerTimes(c, s, e, w);
    }
  }

  // ---------------------------------------------------------------- all of it, in every run

  /** Nothing is queued once a worker has exited, and the merged list is what the merge built. */
  ghost predicate EndOk(c: Config, s: State) {
    && (s.closed <==> s.dispatcher.Draining? || s.dispatcher.Finished?)
    && (forall w :: 0 <= w < |s.workers| && s.workers[w].pc.Exited? ==> s.closed && s.queue == [])
    && (s.dispatcher.Finished? ==>
          && (forall w :: 0 <= w < |s.workers| ==> s.workers[w].pc.Exited?)
          && s.samples == Flatten(s.workers) + s.dropped)
  }

  ghost predicate Inv(c: Config, s: State) {
    Conserved(c, s) && CountersOk(c, s) && TimesOk(c, s) && EndOk(c, s)
  }

  lemma EndStep(c: Config, s: State, e: Event)
    requires EndOk(c, s) && Step(c, s, e).Some?
    ensures EndOk(c, Step(c, s, e).value)
  {}

  lemma {:induction false} NewWorkers(n: nat, x: int)
    ensures var ws := seq(n, i => Worker(Idle, []));
      Sum(ws, Carries(x)) == 0 && Sum(ws, Busy) == 0 && Sum(ws, SentBy) == 0
  {
    var ws := seq(n, i => Worker(Idle, []));
    SumConst(ws, Carries(x), 0);
    SumConst(ws, Busy, 0);
    SumConst(ws, SentBy, 0);
  }

  lemma InitInv(c: Config)
    ensures Inv(c, Init(c))
  {
    NewWorkers(c.workers, 0);
    forall x ensures ConservedAt(c, Init(c), x) { NewWorkers(c.workers, x); }
  }

  lemma StepInv(c: Config, s: State, e: Event)
    requires Inv(c, s) && Step(c, s, e).Some?
    ensures Inv(c, Step(c, s, e).value)
  {
    forall x ensures ConservedAt(c, Step(c, s, e).value, x) { ConservedStep(c, s, e, x); }
    CountersStep(c, s, e);
    TimesStep(c, s, e);
    EndStep(c, s, e);
  }

  lemma {:induction false} InvInEveryRun(c: Config, ss: seq<State>, es: seq<Event>, n: nat)
    requires FromStart(c, ss, es) && n <= |es|
    ensures Inv(c, ss[n])
  {
    if n == 0 {
      InitInv(c);
    } else {
      InvInEveryRun(c, ss, es, n - 1);
      assert Follows(c, ss, es, n - 1);
      StepInv(c, ss[n - 1], es[n - 1]);
    }
  }

  lemma {:induction false} BusyRange(ws: seq<Worker>)
    ensures 0 <= Sum(ws, Busy) <= |ws|
  {
    if ws != [] { BusyRange(ws[..|ws| - 1]); }
  }

  /** At every step inFlight lies between -1 and the queue's capacity plus the workers. */
  lemma InFlightBounds(c: Config, ss: seq<State>, es: seq<Event>, n: nat)
    requires FromStart(c, ss, es) && n <= |es|
    ensures -1 <= ss[n].inFlight <= c.cap + c.workers
  {
    InvInEveryRun(c, ss, es, n);
    BusyRange(ss[n].workers);
  }

  /** The lower bound is reached: a worker can finish a job before the dispatcher counts it in. */
  lemma InFlightDipsBelowZero(c: Config, r: Sample) returns (ss: seq<State>, es: seq<Event>)
    requires c.cap >= 1 && c.workers >= 1 && r.at == c.start
    ensures FromStart(c, ss, es) && ss[|es|].inFlight == -1
  {
    ss, es := [Init(c)], [];
    ss, es := Extend(c, ss, es, TickerFires);
    ss, es := Extend(c, ss, es, LoopStep);
    ss, es := Extend(c, ss, es, Take(0));
    ss, es := Extend(c, ss, es, Record(0, r));
    ss, es := Extend(c, ss, es, CountSent(0));
    ss, es := Extend(c, ss, es, LeaveFlight(0));
  }

  /** What one exited worker carries is what it recorded. */
  lemma ExitedWorker(w: Worker, x: int)
    requires w.pc.Exited?
    ensures Carries(x)(w) == Sum(w.out, For(x)) && Busy(w) == 0 && SentBy(w) == |w.out|
  {}

  lemma {:induction false} ExitedHoldNothing(ws: seq<Worker>, x: int)
    requires forall w :: 0 <= w < |ws| ==> ws[w].pc.Exited?
    ensures Sum(ws, Carries(x)) == Sum(Flatten(ws), For(x))
    ensures Sum(ws, Busy) == 0 && Sum(ws, SentBy) == |Flatten(ws)|
  {
    if ws != [] {
      var init, last := ws[..|ws| - 1], ws[|ws| - 1];
      ExitedHoldNothing(init, x);
      ExitedWorker(last, x);
      SumConcat(Flatten(init), last.out, For(x));
    }
  }

  /** The times of the first n slots. */
  function Slots(c: Config, n: nat): seq<int> {
    if n == 0 then [] else Slots(c, n - 1) + [Due(c, n - 1)]
  }

  lemma {:induction false} SlotsAre(c: Config, n: nat)
    ensures |Slots(c, n)| == n && forall k :: 0 <= k < n ==> Slots(c, n)[k] == Due(c, k)
  {
    if n > 0 { SlotsAre(c, n - 1); }
  }

  lemma {:induction false} SlotCountIs(c: Config, n: nat, x: int)
    ensures multiset(Slots(c, n))[x] == SlotCount(c, n, x)
  {
    if n > 0 { SlotCountIs(c, n - 1, x); }
  }

  /** The slots the samples are for. */
  function SlotsOf(s: seq<Sample>): seq<int>
    requires forall i :: 0 <= i < |s| ==> s[i].scheduledAt.Some?
  {
    if s == [] then [] else SlotsOf(s[..|s| - 1]) + [s[|s| - 1].scheduledAt.value]
  }

  lemma {:induction false} SlotsOfCount(s: seq<Sample>, x: int)
    requires forall i :: 0 <= i < |s| ==> s[i].scheduledAt.Some?
    ensures multiset(SlotsOf(s))[x] == Sum(s, For(x)) && |SlotsOf(s)| == |s|
  {
    if s != [] { SlotsOfCount(s[..|s| - 1], x); }
  }

  lemma {:induction false} FlattenNotEarly(ws: seq<Worker>, now: int)
    requires forall w :: 0 <= w < |ws| ==> WorkerTimesOk(ws[w], now)
    ensures forall i :: 0 <= i < |Flatten(ws)| ==> NotEarly(Flatten(ws)[i])
  {
    if ws != [] {
      FlattenNotEarly(ws[..|ws| - 1], now);
      assert WorkerTimesOk(ws[|ws| - 1], now);
    }
  }

  /** What is true of a state once the samples are merged. */
  lemma FinishedState(c: Config, s: State, x: int)
    requires Inv(c, s) && s.dispatcher.Finished? && c.workers >= 1
    ensures Sum(s.samples, For(x)) == SlotCount(c, s.issued, x)
    ensures s.inFlight == 0 && s.sent == |s.samples|
    ensures forall i :: 0 <= i < |s.samples| ==> NotEarly(s.samples[i])
  {
    assert s.workers[0].pc.Exited? && s.queue == [];
    assert ConservedAt(c, s, x);
    ExitedHoldNothing(s.workers, x);
    SumConcat(Flatten(s.workers), s.dropped, For(x));
    FlattenNotEarly(s.workers, s.now);
  }

  /** The lag is the whole difference, not zero in its place. */
  predicate Unclipped(x: Sample) {
    x.scheduledAt.Some? && x.SchedLag() == x.at - x.scheduledAt.value
  }

  /**
   At the end of every run each issued slot has exactly one sample, sent equals issued,
   nothing is in flight, and no sample's lag was clipped at zero.
   */
  lemma EveryRunConserves(c: Config, ss: seq<State>, es: seq<Event>)
    requires FromStart(c, ss, es) && ss[|es|].dispatcher.Finished? && c.workers >= 1
    ensures var s := ss[|es|];
      && s.sent == s.issued == |s.samples| && s.inFlight == 0
      && (forall i :: 0 <= i < |s.samples| ==> Unclipped(s.samples[i]))
      && multiset(SlotsOf(s.samples)) == multiset(Slots(c, s.issued))
  {
    var s := ss[|es|];
    InvInEveryRun(c, ss, es, |es|);
    FinishedState(c, s, 0);
    forall i | 0 <= i < |s.samples|
      ensures Unclipped(s.samples[i])
    {
      assert NotEarly(s.samples[i]);
    }
    forall x ensures multiset(SlotsOf(s.samples))[x] == multiset(Slots(c, s.issued))[x] {
      FinishedState(c, s, x);
      SlotsOfCount(s.samples, x);
      SlotCountIs(c, s.issued, x);
    }
    SlotsAre(c, s.issued);
    SlotsOfCount(s.samples, 0);
    assert multiset(SlotsOf(s.samples)) == multiset(Slots(c, s.issued));
    assert |multiset(SlotsOf(s.samples))| == |s.samples|;
    assert |multiset(Slots(c, s.issued))| == s.issued;
  }

  lemma SlotGap(c: Config, i: nat, j: nat)
    requires i <= j
    ensures Due(c, j) - Due(c, i) == (j - i) * c.period
    ensures c.period >= 1 && i < j ==> Due(c, i) < Due(c, j)
  {
    assert j * c.period - i * c.period == (j - i) * c.period;
  }

  /** Different slots have different times, so each sample's slot can be read off it. */
  lemma SlotsDistinct(c: Config, i: nat, j: nat)
    requires c.period >= 1 && Due(c, i) == Due(c, j)
    ensures i == j
  {
    if i < j { SlotGap(c, i, j); }
    if j < i { SlotGap(c, j, i); }
  }

  // ---------------------------------------------------------------- schedule

  lemma MulMono(a: int, b: int, p: nat)
    requires a <= b
    ensures a * p <= b * p
  {}

  lemma QuotientIs(x: int, p: nat, n: nat)
    requires p >= 1 && n >= 1 && (n - 1) * p <= x < n * p
    ensures x / p == n - 1
  {
    var q := x / p;
    assert q * p <= x < (q + 1) * p;
    if q < n - 1 { MulMono(q + 1, n - 1, p); }
    if q > n - 1 { MulMono(n, q, p); }
  }

  /**
   However many ticks were missed: when the catch-up loop is left, exactly the slots up to the
   time it read have been issued.
   */
  lemma ScheduleExact(c: Config, ss: seq<State>, es: seq<Event>, n: nat)
    requires FromStart(c, ss, es) && n < |es| && c.period >= 1
    requires es[n].LoopStep? && ss[n + 1].dispatcher.Selecting?
    ensures ss[n].dispatcher.Looping? && ss[n].dispatcher.tick >= c.start
    ensures ss[n + 1].issued == (ss[n].dispatcher.tick - c.start) / c.period + 1
  {
    assert Follows(c, ss, es, n);
    InvInEveryRun(c, ss, es, n);
    var s := ss[n];
    assert Due(c, 0) == c.start;
    QuotientIs(s.dispatcher.tick - c.start, c.period, s.issued);
  }

  /** A longer run with this beginning. */
  ghost predicate Continues(c: Config, ss: seq<State>, es: seq<Event>, ss': seq<State>, es': seq<Event>) {
    FromStart(c, ss', es') && ss <= ss' && es <= es'
  }

  /** With period zero every slot is due at once, so the loop always finds another one. */
  lemma LoopAgain(c: Config, s: State, e: Event)
    requires c.period == 0 && Step(c, s, e).Some? && Dispatching(s) && c.start <= LatestTick(s)
    ensures Dispatching(Step(c, s, e).value)
  {
    assert s.issued * c.period == 0;
  }

  lemma {:induction false} NeverLeaves(c: Config, ss: seq<State>, es: seq<Event>, i: nat, j: nat)
    requires FromStart(c, ss, es) && c.period == 0 && i <= j <= |es| && Dispatching(ss[i])
    ensures Dispatching(ss[j])
    decreases j
  {
    if i < j {
      NeverLeaves(c, ss, es, i, j - 1);
      InvInEveryRun(c, ss, es, j - 1);
      assert Follows(c, ss, es, j - 1);
      LoopAgain(c, ss[j - 1], es[j - 1]);
    }
  }

  /** One pass through the loop: out of it, or back with the next slot issued. */
  lemma OnePass(c: Config, ss: seq<State>, es: seq<Event>) returns (ss': seq<State>, es': seq<Event>)
    requires FromStart(c, ss, es) && ss[|es|].dispatcher.Looping?
    ensures Continues(c, ss, es, ss', es')
    ensures var s, s' := ss[|es|], ss'[|es'|];
      if Due(c, s.issued) > s.dispatcher.tick then s'.dispatcher.Selecting?
      else s'.dispatcher == s.dispatcher && s'.issued == s.issued + 1
  {
    ss', es' := Extend(c, ss, es, LoopStep);
    if ss'[|es'|].dispatcher.Enqueued? {
      ss', es' := Extend(c, ss', es', AddInFlight);
    } else if ss'[|es'|].dispatcher.DroppedJob? {
      ss', es' := Extend(c, ss', es', AddSent);
    }
  }

  /** The dispatcher alone gets out of the loop when the period is positive. */
  lemma {:induction false} RunLoop(c: Config, ss: seq<State>, es: seq<Event>)
      returns (ss': seq<State>, es': seq<Event>)
    requires FromStart(c, ss, es) && c.period >= 1 && ss[|es|].dispatcher.Looping?
    ensures Continues(c, ss, es, ss', es') && ss'[|es'|].dispatcher.Selecting?
    decreases ss[|es|].dispatcher.tick - Due(c, ss[|es|].issued)
  {
    var s := ss[|es|];
    ss', es' := OnePass(c, ss, es);
    if Due(c, s.issued) <= s.dispatcher.tick {
      SlotGap(c, s.issued, s.issued + 1);
      ss', es' := RunLoop(c, ss', es');
    }
  }

  /**
   Once the dispatcher is in the catch-up loop, some continuation of the run gets it out if and
   only if the period is at least one nanosecond.
   */
  lemma LoopEndsIff(c: Config, ss: seq<State>, es: seq<Event>)
    requires FromStart(c, ss, es) && ss[|es|].dispatcher.Looping?
    ensures c.period >= 1 <==>
      exists ss': seq<State>, es': seq<Event> :: Continues(c, ss, es, ss', es') && ss'[|es'|].dispatcher.Selecting?
  {
    if c.period >= 1 {
      var ss', es' := RunLoop(c, ss, es);
      assert Continues(c, ss, es, ss', es') && ss'[|es'|].dispatcher.Selecting?;
    } else {
      forall ss': seq<State>, es': seq<Event> | Continues(c, ss, es, ss', es')
        ensures !ss'[|es'|].dispatcher.Selecting?
      {
        NeverLeaves(c, ss', es', |es|, |es'|);
      }
    }
  }

  // ---------------------------------------------------------------- a run that finishes

  /** The first slot goes out and the loop is left again. */
  lemma OneSlotIssued(c: Config) returns (ss: seq<State>, es: seq<Event>)
    requires c.period >= 1 && c.cap >= 1 && c.workers == 1
    ensures FromStart(c, ss, es)
    ensures ss[|es|] == Init(c).(issued := 1, queue := [c.start], inFlight := 1)
  {
    SlotGap(c, 0, 1);
    ss, es := [Init(c)], [];
    ss, es := Extend(c, ss, es, TickerFires);
    ss, es := Extend(c, ss, es, LoopStep);
    ss, es := Extend(c, ss, es, AddInFlight);
    ss, es := Extend(c, ss, es, LoopStep);
  }

  lemma OneSlotServed(c: Config, r: Sample) returns (ss: seq<State>, es: seq<Event>)
    requires c.period >= 1 && c.cap >= 1 && c.workers == 1 && r.at == c.start
    ensures FromStart(c, ss, es) && ss[|es|].dispatcher.Selecting? && ss[|es|].issued == 1
    ensures ss[|es|].queue == [] && !ss[|es|].closed && |ss[|es|].workers| == 1 && ss[|es|].workers[0].pc.Idle?
  {
    ss, es := OneSlotIssued(c);
    ss, es := Extend(c, ss, es, Take(0));
    ss, es := Extend(c, ss, es, Record(0, r));
    ss, es := Extend(c, ss, es, CountSent(0));
    ss, es := Extend(c, ss, es, LeaveFlight(0));
  }

  /** Some run does finish with a slot issued, whatever its one worker measured. */
  lemma FinishHappens(c: Config, r: Sample) returns (ss: seq<State>, es: seq<Event>)
    requires c.period >= 1 && c.cap >= 1 && c.workers == 1 && r.at == c.start
    ensures FromStart(c, ss, es) && ss[|es|].dispatcher.Finished? && ss[|es|].issued == 1
  {
    ss, es := OneSlotServed(c, r);
    ss, es := Extend(c, ss, es, Stop);
    ss, es := Extend(c, ss, es, Exit(0));
    ss, es := Extend(c, ss, es, Merge);
  }
}
