/**
 lockout.go as Login calls it, in the source's own form: methods that issue one Redis command
 after another on the shared counter, with the account's other logins running in between.
 Each contract gives the steps the call performed, in order.
 */
module LockoutHandlers {
  import opened Wrappers
  import opened Traces
  import opened LockoutMachine
  import opened LockoutTheorems

  /** What the user lookup and the password check come to. */
  datatype Lookup = DatabaseError | UnknownEmail | WrongPassword | RightPassword

  datatype Outcome = TooMany(retryAfter: int) | InvalidCredentials | InternalError | Accepted

  /** Fates of the Redis commands one login may send. */
  datatype Faults = Faults(get: Reply, ttl: Reply, incr: Reply, expire: Reply, del: Reply)

  /** The answer of a login that was not locked out. */
  function Verdict(lookup: Lookup): Outcome {
    match lookup
    case DatabaseError => InternalError
    case RightPassword => Accepted
    case _ => InvalidCredentials
  }

  /** An unknown email is counted exactly as a wrong password is; `first` when INCR meets no live counter. */
  function DecisionSteps(me: HandlerID, lookup: Lookup, f: Faults, first: bool): (steps: seq<Event>)
    ensures steps != []
  {
    match lookup
    case DatabaseError => [Abort(me)]
    case RightPassword => [Reset(me, f.del)]
    case _ => if first && f.incr.Answered? then [Incr(me, f.incr), Expire(me, f.expire)] else [Incr(me, f.incr)]
  }

  /** An unknown email and a wrong password cannot be told apart by the answer or by what is counted. */
  lemma EmailsNotRevealed(me: HandlerID, f: Faults, first: bool)
    ensures Verdict(UnknownEmail) == Verdict(WrongPassword)
    ensures DecisionSteps(me, UnknownEmail, f, first) == DecisionSteps(me, WrongPassword, f, first)
  {}

  predicate Full(s: State, get: Reply) {
    get.Answered? && Count(s) >= MAX_LOGIN_FAILURES
  }

  lemma OtherStepKeeps(s: State, e: Event, me: HandlerID)
    requires Step(s, e).Some? && Mover(e) != Some(me)
    ensures var s' := Step(s, e).value;
      (me in s.procs <==> me in s'.procs) && (me in s.procs ==> s'.procs[me] == s.procs[me])
  {}

  class Account {
    var st: State
    ghost var past: seq<State>
    ghost var events: seq<Event>

    ghost predicate Valid()
      reads this
    {
      FromStart(past, events) && past[|events|] == st
    }

    constructor (now: int)
      ensures Valid() && st == Init(now) && events == []
    {
      st := Init(now);
      past, events := [Init(now)], [];
    }

    method Do(e: Event)
      requires Valid() && Step(st, e).Some?
      modifies this
      ensures Valid() && Some(st) == Step(old(st), e) && events == old(events) + [e] && past == old(past) + [st]
      ensures forall me: HandlerID ::
        Own(events, Mover, me) == Own(old(events), Mover, me) + if Mover(e) == Some(me) then [e] else []
    {
      ghost var ss, es := Extend(past, events, e);
      forall me: HandlerID
        ensures Own(es, Mover, me) == Own(events, Mover, me) + if Mover(e) == Some(me) then [e] else []
      {
        OwnSnoc(events, e, Mover, me);
      }
      st := Step(st, e).value;
      past, events := ss, es;
    }

    /** The account's other logins run this script. */
    method Others(me: HandlerID, script: seq<Event>)
      requires Valid()
      modifies this
      ensures Valid() && old(events) <= events && old(past) <= past
      ensures Own(events, Mover, me) == Own(old(events), Mover, me)
      ensures (me in old(st).procs <==> me in st.procs) && (me in st.procs ==> st.procs[me] == old(st).procs[me])
    {
      for i := 0 to |script|
        invariant Valid() && old(events) <= events && old(past) <= past
        invariant Own(events, Mover, me) == Own(old(events), Mover, me)
        invariant (me in old(st).procs <==> me in st.procs) && (me in st.procs ==> st.procs[me] == old(st).procs[me])
      {
        if Mover(script[i]) != Some(me) && Step(st, script[i]).Some? {
          OtherStepKeeps(st, script[i], me);
          Do(script[i]);
        }
      }
    }

    /** TTL of a locked account; an error or a missing deadline reports a whole window. */
    method Remaining(me: HandlerID, ttl: Reply) returns (retryAfter: int)
      requires Valid() && me in st.procs && st.procs[me] == LockedOut
      modifies this
      ensures Valid() && old(events) <= events && old(past) <= past && me !in st.procs
      ensures 0 <= retryAfter <= LOCKOUT_WINDOW
      ensures retryAfter == if ttl.Answered? then RetryAfter(old(st)) else LOCKOUT_WINDOW
      ensures Own(events, Mover, me) == Own(old(events), Mover, me) + [ReadTTL(me, ttl), Leave(me)]
    {
      DeadlineWithinWindow(past, events, |events|);
      retryAfter := if ttl.Answered? then RetryAfter(st) else LOCKOUT_WINDOW;
      Do(ReadTTL(me, ttl));
      Do(Leave(me));
    }

    method Get(me: HandlerID, get: Reply) returns (locked: bool)
      requires Valid() && me !in st.procs
      modifies this
      ensures Valid() && old(events) <= events && old(past) <= past && me in st.procs
      ensures locked <==> Full(old(st), get)
      ensures st.procs[me] == if locked then LockedOut else Checked
      ensures Own(events, Mover, me) == Own(old(events), Mover, me) + [Check(me, get)]
    {
      locked := get.Answered? && Count(st) >= MAX_LOGIN_FAILURES;
      Do(Check(me, get));
    }

    /** GET, and TTL only when the count has reached the limit; a failed GET means not locked. */
    method IsLocked(me: HandlerID, get: Reply, ttl: Reply, others: seq<Event>)
        returns (locked: bool, retryAfter: int)
      requires Valid() && me !in st.procs
      modifies this
      ensures Valid() && old(events) <= events && old(past) <= past
      ensures locked <==> Full(old(st), get)
      ensures !locked ==> retryAfter == 0 && me in st.procs && st.procs[me] == Checked
      ensures locked ==> me !in st.procs && 0 <= retryAfter <= LOCKOUT_WINDOW
      ensures Own(events, Mover, me) == Own(old(events), Mover, me) +
        if locked then [Check(me, get), ReadTTL(me, ttl), Leave(me)] else [Check(me, get)]
    {
      locked := Get(me, get);
      if !locked { return locked, 0; }
      Others(me, others);
      retryAfter := Remaining(me, ttl);
    }

    /** INCR: the new count, when its reply arrives. */
    method Increment(me: HandlerID, incr: Reply) returns (count: Option<nat>)
      requires Valid() && me in st.procs && st.procs[me] == Checked
      modifies this
      ensures Valid() && events == old(events) + [Incr(me, incr)] && old(past) <= past
      ensures Own(events, Mover, me) == Own(old(events), Mover, me) + [Incr(me, incr)]
      ensures count == if incr.Answered? then Some(Count(old(st)) + 1) else None
      ensures count == Some(1) ==> me in st.procs && st.procs[me] == ExpirePending
      ensures count != Some(1) ==> me !in st.procs
    {
      count := if incr.Answered? then Some(Count(st) + 1) else None;
      Do(Incr(me, incr));
    }

    method SetExpiry(me: HandlerID, expire: Reply)
      requires Valid() && me in st.procs && st.procs[me] == ExpirePending
      modifies this
      ensures Valid() && events == old(events) + [Expire(me, expire)] && old(past) <= past && me !in st.procs
      ensures Own(events, Mover, me) == Own(old(events), Mover, me) + [Expire(me, expire)]
    {
      Do(Expire(me, expire));
    }

    /** INCR, and EXPIRE only when it answered 1; an error in either is returned. */
    method RecordFailure(me: HandlerID, incr: Reply, expire: Reply, others: seq<Event>) returns (ok: bool)
      requires Valid() && me in st.procs && st.procs[me] == Checked
      modifies this
      ensures Valid() && old(events) + [Incr(me, incr)] <= events && old(past) <= past && me !in st.procs
      ensures var first := incr.Answered? && Count(old(st)) == 0;
        && Own(events, Mover, me) == Own(old(events), Mover, me) +
             (if first then [Incr(me, incr), Expire(me, expire)] else [Incr(me, incr)])
        && (ok <==> incr.Answered? && (first ==> expire.Answered?))
    {
      var count := Increment(me, incr);
      if count.None? { return false; }
      if count.value == 1 {
        Others(me, others);
        SetExpiry(me, expire);
        return expire.Answered?;
      }
      ok := true;
    }

    method ResetFailures(me: HandlerID, del: Reply) returns (ok: bool)
      requires Valid() && me in st.procs && st.procs[me] == Checked
      modifies this
      ensures Valid() && old(events) + [Reset(me, del)] <= events && old(past) <= past
      ensures me !in st.procs && ok == del.Answered?
      ensures Own(events, Mover, me) == Own(old(events), Mover, me) + [Reset(me, del)]
      ensures ok ==> Count(st) == 0
    {
      Do(Reset(me, del));
      ok := del.Answered?;
    }

    /** A database error other than no rows: neither counted nor reset. */
    method GiveUp(me: HandlerID)
      requires Valid() && me in st.procs
      modifies this
      ensures Valid() && old(events) + [Abort(me)] <= events && old(past) <= past && me !in st.procs
      ensures Own(events, Mover, me) == Own(old(events), Mover, me) + [Abort(me)]
    {
      Do(Abort(me));
    }

    /** What Login does once the lookup and the password check have come to something. */
    method Decide(me: HandlerID, lookup: Lookup, f: Faults, others: seq<Event>) returns (outcome: Outcome)
      requires Valid() && me in st.procs && st.procs[me] == Checked
      modifies this
      ensures Valid() && old(past) <= past && me !in st.procs && outcome == Verdict(lookup)
      ensures var steps := DecisionSteps(me, lookup, f, Count(old(st)) == 0);
        old(events) + [steps[0]] <= events && Own(events, Mover, me) == Own(old(events), Mover, me) + steps
    {
      match lookup
      case DatabaseError =>
        GiveUp(me);
        outcome := InternalError;
      case RightPassword =>
        var _ := ResetFailures(me, f.del);
        outcome := Accepted;
      case _ =>
        var _ := RecordFailure(me, f.incr, f.expire, others);
        outcome := InvalidCredentials;
    }

    /**
     Login from the lockout check to the password decision. Errors of RecordFailure and
     ResetFailures are ignored, as the source ignores them. `at` is the position of the command
     or exit that follows the decision, so past[at] is the state it met.
     */
    method Attempt(me: HandlerID, lookup: Lookup, f: Faults, others: seq<seq<Event>>)
        returns (outcome: Outcome, ghost own: seq<Event>, ghost at: nat)
      requires Valid() && me !in st.procs && |others| == 3
      modifies this
      ensures Valid() && old(events) <= events && old(past) <= past && me !in st.procs
      ensures Own(events, Mover, me) == Own(old(events), Mover, me) + own
      ensures Full(old(st), f.get) ==>
        && outcome.TooMany? && 0 <= outcome.retryAfter <= LOCKOUT_WINDOW
        && own == [Check(me, f.get), ReadTTL(me, f.ttl), Leave(me)]
      ensures !Full(old(st), f.get) ==>
        && outcome == Verdict(lookup) && |old(events)| < at < |events| < |past|
        && var steps := DecisionSteps(me, lookup, f, Count(past[at]) == 0);
        own == [Check(me, f.get)] + steps && events[at] == steps[0]
      ensures outcome.Accepted? <==> !Full(old(st), f.get) && lookup.RightPassword?
      ensures outcome.Accepted? <==> Reset(me, f.del) in own
      ensures outcome.InternalError? <==> !Full(old(st), f.get) && lookup.DatabaseError?
      ensures outcome.InvalidCredentials? <==> !Full(old(st), f.get) && (lookup.UnknownEmail? || lookup.WrongPassword?)
      ensures outcome.InvalidCredentials? <==> Incr(me, f.incr) in own
    {
      var locked, retryAfter := IsLocked(me, f.get, f.ttl, others[0]);
      at := |events|;
      if locked { return TooMany(retryAfter), [Check(me, f.get), ReadTTL(me, f.ttl), Leave(me)], at; }
      Others(me, others[1]);
      at := |events|;
      own := [Check(me, f.get)] + DecisionSteps(me, lookup, f, Count(st) == 0);
      outcome := Decide(me, lookup, f, others[2]);
    }
  }
}
