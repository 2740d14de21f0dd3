/**
 The account lockout counter of internal/redis_db/lockout.go as the Login handler uses it:
 IsLocked (GET, then TTL when locked), RecordFailure (INCR, then EXPIRE when the count is 1)
 and ResetFailures (DEL) are separate Redis commands, so the handlers of one account
 interleave between them. One machine is one LockoutKey: no command names two keys.
 */
module LockoutMachine {
  import opened Wrappers

  type HandlerID = nat

  const MAX_LOGIN_FAILURES: nat := 5
  /** 15 minutes, in nanoseconds. */
  const LOCKOUT_WINDOW: int := 15 * 60 * 1_000_000_000

  datatype Counter = Counter(count: nat, deadline: Option<int>)

  datatype Pc =
    | Checked                            // past IsLocked, deciding on the password
    | ExpirePending                      // INCR answered 1, EXPIRE still to come
    | LockedOut                          // GET said locked, TTL still to come
    | Refused(retryAfter: int)           // answering 429

  /** `failures` is history: the times of the executed INCRs, oldest first. */
  datatype State = State(now: int, counter: Option<Counter>, procs: map<HandlerID, Pc>, failures: seq<int>)

  datatype Reply = NotExecuted | ReplyLost | Answered

  datatype Event =
    | Tick(d: nat)
    | Check(h: HandlerID, reply: Reply)      // GET; any error lets the login through
    | ReadTTL(h: HandlerID, reply: Reply)
    | Leave(h: HandlerID)                    // 429 sent
    | Incr(h: HandlerID, reply: Reply)       // wrong password or unknown email
    | Expire(h: HandlerID, reply: Reply)
    | Reset(h: HandlerID, reply: Reply)      // right password: DEL
    | Abort(h: HandlerID)                    // database error, cancelled request or crash

  function Init(now: int): State {
    State(now, None, map[], [])
  }

  predicate Live(s: State) {
    s.counter.Some? && (s.counter.value.deadline.None? || s.now <= s.counter.value.deadline.value)
  }

  /** The value GET would return; a missing or expired key counts as 0. */
  function Count(s: State): nat {
    if Live(s) then s.counter.value.count else 0
  }

  function WithProc(s: State, h: HandlerID, pc: Pc): State {
    s.(procs := s.procs[h := pc])
  }

  function Finish(s: State, h: HandlerID): State {
    s.(procs := s.procs - {h})
  }

  /** INCR keeps the deadline of a live key and creates a key without one. */
  function Incremented(s: State): State {
    var c := if Live(s) then s.counter.value.(count := s.counter.value.count + 1) else Counter(1, None);
    s.(counter := Some(c), failures := s.failures + [s.now])
  }

  /** EXPIRE does nothing to a missing key. */
  function WithExpiry(s: State): State {
    if Live(s) then s.(counter := Some(s.counter.value.(deadline := Some(s.now + LOCKOUT_WINDOW)))) else s
  }

  /** TTL is -1 without a deadline and -2 without a key; IsLocked then reports a whole window. */
  function RetryAfter(s: State): int {
    if Live(s) && s.counter.value.deadline.Some? then s.counter.value.deadline.value - s.now else LOCKOUT_WINDOW
  }

  predicate Is(s: State, h: HandlerID, pc: Pc) {
    h in s.procs && s.procs[h] == pc
  }

  function Step(s: State, e: Event): Option<State> {
    match e
    case Tick(d) => Some(s.(now := s.now + d))
    case Abort(h) => if h in s.procs then Some(Finish(s, h)) else None
    case Check(h, reply) =>
      if h in s.procs then None else
      Some(WithProc(s, h, if reply.Answered? && Count(s) >= MAX_LOGIN_FAILURES then LockedOut else Checked))
    case ReadTTL(h, reply) =>
      if !Is(s, h, LockedOut) then None else
      Some(WithProc(s, h, Refused(if reply.Answered? then RetryAfter(s) else LOCKOUT_WINDOW)))
    case Leave(h) => if h in s.procs && s.procs[h].Refused? then Some(Finish(s, h)) else None
    case Incr(h, reply) =>
      if !Is(s, h, Checked) then None
      else if reply.NotExecuted? then Some(Finish(s, h))
      else
        var t := Incremented(s);
        Some(if reply.Answered? && t.counter.value.count == 1 then WithProc(t, h, ExpirePending) else Finish(t, h))
    case Expire(h, reply) =>
      if !Is(s, h, ExpirePending) then None else
      Some(Finish(if reply.NotExecuted? then s else WithExpiry(s), h))
    case Reset(h, reply) =>
      if !Is(s, h, Checked) then None else
      Some(Finish(if reply.NotExecuted? then s else s.(counter := None), h))
  }

  predicate Follows(ss: seq<State>, es: seq<Event>, i: nat)
    requires i < |es| < |ss|
  {
    Step(ss[i], es[i]) == Some(ss[i + 1])
  }

  ghost predicate IsRun(ss: seq<State>, es: seq<Event>) {
    |ss| == |es| + 1 && forall i :: 0 <= i < |es| ==> Follows(ss, es, i)
  }

  ghost predicate FromStart(ss: seq<State>, es: seq<Event>) {
    IsRun(ss, es) && ss[0] == Init(ss[0].now)
  }

  lemma Extend(ss: seq<State>, es: seq<Event>, e: Event) returns (ss': seq<State>, es': seq<Event>)
    requires FromStart(ss, es) && Step(ss[|es|], e).Some?
    ensures FromStart(ss', es') && es' == es + [e] && ss' == ss + [Step(ss[|es|], e).value]
  {
    ss', es' := ss + [Step(ss[|es|], e).value], es + [e];
    forall i | 0 <= i < |es'| ensures Follows(ss', es', i) {
      if i < |es| { assert Follows(ss, es, i); }
    }
  }
}
