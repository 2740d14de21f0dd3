/**
 The open-loop dispatcher of cmd/loadtest/main.go as a step machine: one dispatcher, a bounded
 queue, a fixed set of workers and two shared atomic counters. Each channel operation and each
 atomic add is one step, and any interleaving is allowed.
 */
module OpenLoopMachine {
  import opened Wrappers
  import opened Samples

  /** A run's constants: first slot, gap between slots, queue capacity and number of workers. */
  datatype Config = Config(start: int, period: nat, cap: nat, workers: nat)

  datatype DispatcherPc =
    | Selecting                 // waiting for the ticker, the deadline or an abort
    | Looping(tick: int)        // catching up with the time read after the tick
    | Enqueued(tick: int)       // job sent, inFlight.Add(1) still to come
    | DroppedJob(tick: int)     // never-sent sample appended, sent.Add(1) still to come
    | Draining                  // queue closed, waiting for the workers
    | Finished                  // samples merged

  datatype WorkerPc =
    | Idle
    | Holding(due: int, since: int)     // issuing the request
    | Recorded                          // sample appended, sent.Add(1) still to come
    | Counted                           // inFlight.Add(-1) still to come
    | Exited

  datatype Worker = Worker(pc: WorkerPc, out: seq<Sample>)

  datatype State = State(
    now: int,
    issued: nat,
    queue: seq<int>,
    closed: bool,
    inFlight: int,
    sent: int,
    dispatcher: DispatcherPc,
    workers: seq<Worker>,
    dropped: seq<Sample>,
    samples: seq<Sample>)

  datatype Event =
    | Tick(d: nat)
    | TickerFires
    | LoopStep
    | AddInFlight
    | AddSent
    | Stop                              // deadline or abort: close(queue)
    | Take(w: nat)
    | Record(w: nat, s: Sample)         // issue returned s
    | CountSent(w: nat)
    | LeaveFlight(w: nat)
    | Exit(w: nat)
    | Merge

  function Init(c: Config): State {
    State(c.start, 0, [], false, 0, 0, Selecting, seq(c.workers, i => Worker(Idle, [])), [], [])
  }

  function Due(c: Config, k: nat): int {
    c.start + k * c.period
  }

  /** The sample left by a job the queue had no room for. */
  function NeverSent(due: int, at: int): Sample {
    Sample(at, "", 0, 0, Some(Error(true, false, "")), NoThrottle, Some(due), false, false)
  }

  function WithWorker(s: State, w: nat, x: Worker): State
    requires w < |s.workers|
  {
    s.(workers := s.workers[w := x])
  }

  predicate WorkerAt(s: State, w: nat, pc: WorkerPc) {
    w < |s.workers| && s.workers[w].pc == pc
  }

  function Flatten(outs: seq<Worker>): seq<Sample> {
    if outs == [] then [] else Flatten(outs[..|outs| - 1]) + outs[|outs| - 1].out
  }

  /** One pass of the inner loop: stop when the next slot is still to come, else issue it or drop it. */
  function Loop(c: Config, s: State, tick: int): State {
    var due := Due(c, s.issued);
    if due > tick then s.(dispatcher := Selecting)
    else if |s.queue| < c.cap then
      s.(issued := s.issued + 1, queue := s.queue + [due], dispatcher := Enqueued(tick))
    else
      s.(issued := s.issued + 1, dropped := s.dropped + [NeverSent(due, tick)], dispatcher := DroppedJob(tick))
  }

  function Step(c: Config, s: State, e: Event): Option<State> {
    match e
    case Tick(d) => Some(s.(now := s.now + d))
    case TickerFires => if s.dispatcher.Selecting? then Some(s.(dispatcher := Looping(s.now))) else None
    case LoopStep => if s.dispatcher.Looping? then Some(Loop(c, s, s.dispatcher.tick)) else None
    case AddInFlight =>
      if !s.dispatcher.Enqueued? then None else
      Some(s.(inFlight := s.inFlight + 1, dispatcher := Looping(s.dispatcher.tick)))
    case AddSent =>
      if !s.dispatcher.DroppedJob? then None else
      Some(s.(sent := s.sent + 1, dispatcher := Looping(s.dispatcher.tick)))
    case Stop => if s.dispatcher.Selecting? then Some(s.(closed := true, dispatcher := Draining)) else None
    case Take(w) =>
      if !WorkerAt(s, w, Idle) || s.queue == [] then None else
      Some(WithWorker(s.(queue := s.queue[1..]), w, s.workers[w].(pc := Holding(s.queue[0], s.now))))
    case Record(w, r) =>
      if w >= |s.workers| || !s.workers[w].pc.Holding? || !(s.workers[w].pc.since <= r.at <= s.now) then None else
      Some(WithWorker(s, w, Worker(Recorded, s.workers[w].out + [r.(scheduledAt := Some(s.workers[w].pc.due))])))
    case CountSent(w) =>
      if !WorkerAt(s, w, Recorded) then None else
      Some(WithWorker(s.(sent := s.sent + 1), w, s.workers[w].(pc := Counted)))
    case LeaveFlight(w) =>
      if !WorkerAt(s, w, Counted) then None else
      Some(WithWorker(s.(inFlight := s.inFlight - 1), w, s.workers[w].(pc := Idle)))
    case Exit(w) =>
      if !WorkerAt(s, w, Idle) || !s.closed || s.queue != [] then None else
      Some(WithWorker(s, w, s.workers[w].(pc := Exited)))
    case Merge =>
      if s.dispatcher.Draining? && forall w :: 0 <= w < |s.workers| ==> s.workers[w].pc.Exited? then
        Some(s.(samples := Flatten(s.workers) + s.dropped, dispatcher := Finished))
      else None
  }

  predicate Follows(c: Config, ss: seq<State>, es: seq<Event>, i: nat)
    requires i < |es| < |ss|
  {
    Step(c, ss[i], es[i]) == Some(ss[i + 1])
  }

  ghost predicate FromStart(c: Config, ss: seq<State>, es: seq<Event>) {
    |ss| == |es| + 1 && ss[0] == Init(c) && forall i :: 0 <= i < |es| ==> Follows(c, ss, es, i)
  }

  lemma Extend(c: Config, ss: seq<State>, es: seq<Event>, e: Event) returns (ss': seq<State>, es': seq<Event>)
    requires FromStart(c, ss, es) && Step(c, ss[|es|], e).Some?
    ensures FromStart(c, ss', es') && es' == es + [e] && ss' == ss + [Step(c, ss[|es|], e).value]
  {
    ss', es' := ss + [Step(c, ss[|es|], e).value], es + [e];
    forall i | 0 <= i < |es'| ensures Follows(c, ss', es', i) {
      if i < |es| { assert Follows(c, ss, es, i); }
    }
  }
}
