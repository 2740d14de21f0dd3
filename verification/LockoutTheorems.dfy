/** What the lockout counter guarantees, for one account, over all runs. */
module LockoutTheorems {
  import opened Wrappers
  import opened Traces
  import opened LockoutMachine

  /** Who moves in this step, if anyone. */
  function Mover(e: Event): Option<HandlerID> {
    if e.Tick? then None else Some(e.h)
  }

  // ---------------------------------------------------------------- overshoot under concurrency

  /** Handlers past the check that have not yet counted or reset. */
  function Past(s: State): set<HandlerID> {
    set h | h in s.procs && s.procs[h].Checked?
  }

  /** Every GET of the run was answered: a failed GET lets a login through whatever the count. */
  ghost predicate ChecksAnswered(es: seq<Event>) {
    forall i :: 0 <= i < |es| && es[i].Check? ==> es[i].reply.Answered?
  }

  ghost predicate AtMostPast(ss: seq<State>, k: nat) {
    forall i :: 0 <= i < |ss| ==> |Past(ss[i])| <= k
  }

  lemma PastAfter(s: State, e: Event)
    requires Step(s, e).Some?
    ensures Past(Step(s, e).value) ==
      match e
      case Check(h, _) => if Is(Step(s, e).value, h, Checked) then Past(s) + {h} else Past(s)
      case Incr(h, _) => Past(s) - {h}
      case Reset(h, _) => Past(s) - {h}
      case Abort(h) => Past(s) - {h}
      case _ => Past(s)
  {
    var s' := Step(s, e).value;
    assert forall h: HandlerID :: Some(h) != Mover(e) ==> (Is(s', h, Checked) <==> Is(s, h, Checked));
  }

  lemma CountAfter(s: State, e: Event)
    requires Step(s, e).Some?
    ensures Count(Step(s, e).value) <= Count(s) + if e.Incr? then 1 else 0
    ensures e.Incr? || e.Reset? ==> e.h in Past(s)
  {}

  /** A login let through although the counter is full, because its GET was not answered. */
  predicate LetThrough(s: State, e: Event) {
    e.Check? && !e.reply.Answered? && Count(s) >= MAX_LOGIN_FAILURES
  }

  /** How many logins the first n steps let through that way. */
  function FailOpens(ss: seq<State>, es: seq<Event>, n: nat): nat
    requires n <= |es| < |ss|
  {
    if n == 0 then 0 else FailOpens(ss, es, n - 1) + if LetThrough(ss[n - 1], es[n - 1]) then 1 else 0
  }

  lemma PastStep(s: State, e: Event)
    requires Step(s, e).Some?
    ensures var s' := Step(s, e).value;
      || Count(s') + |Past(s')| <= Count(s) + |Past(s)| + (if LetThrough(s, e) then 1 else 0)
      || (e.Check? && Count(s') < MAX_LOGIN_FAILURES)
  {
    PastAfter(s, e);
    CountAfter(s, e);
  }

  /**
   In every run with at most k logins past the check at once, the live count and those logins
   together exceed MAX_LOGIN_FAILURES - 1 + k by at most one for each login that a failed GET
   let through a full counter.
   */
  lemma {:induction false} OvershootBound(ss: seq<State>, es: seq<Event>, k: nat, n: nat)
    requires FromStart(ss, es) && n <= |es| && AtMostPast(ss, k)
    ensures Count(ss[n]) + |Past(ss[n])| <= MAX_LOGIN_FAILURES - 1 + k + FailOpens(ss, es, n)
  {
    if n == 0 {
      assert Past(ss[0]) == {};
    } else {
      OvershootBound(ss, es, k, n - 1);
      assert Follows(ss, es, n - 1);
      PastStep(ss[n - 1], es[n - 1]);
      assert |Past(ss[n])| <= k;
    }
  }

  lemma {:induction false} NoFailOpens(ss: seq<State>, es: seq<Event>, n: nat)
    requires n <= |es| < |ss| && ChecksAnswered(es)
    ensures FailOpens(ss, es, n) == 0
  {
    if n > 0 { NoFailOpens(ss, es, n - 1); }
  }

  /** With every GET answered the counter never exceeds MAX_LOGIN_FAILURES - 1 + k. */
  lemma OvershootWhenAnswered(ss: seq<State>, es: seq<Event>, k: nat, n: nat)
    requires FromStart(ss, es) && n <= |es| && ChecksAnswered(es) && AtMostPast(ss, k)
    ensures Count(ss[n]) + |Past(ss[n])| <= MAX_LOGIN_FAILURES - 1 + k
  {
    OvershootBound(ss, es, k, n);
    NoFailOpens(ss, es, n);
  }

  // ---------------------------------------------------------------- a full counter stays full

  /** Redis executed the DEL of a reset. */
  predicate Deleted(e: Event) {
    e.Reset? && !e.reply.NotExecuted?
  }

  /** From i to j the counter neither expires nor is deleted. */
  ghost predicate Undisturbed(ss: seq<State>, es: seq<Event>, i: nat, j: nat)
    requires i <= j <= |es| < |ss|
  {
    && (forall m :: i <= m <= j ==> Live(ss[m]))
    && (forall m :: i <= m < j ==> !Deleted(es[m]))
  }

  lemma CountOnlyGrows(s: State, e: Event)
    requires Step(s, e).Some? && Live(s) && Live(Step(s, e).value) && !Deleted(e)
    ensures Count(Step(s, e).value) >= Count(s)
  {}

  /** Until expiry or reset the count never goes down, in any interleaving. */
  lemma {:induction false} StaysFull(ss: seq<State>, es: seq<Event>, i: nat, j: nat)
    requires FromStart(ss, es) && i <= j <= |es| && Undisturbed(ss, es, i, j)
    ensures Count(ss[j]) >= Count(ss[i])
    decreases j
  {
    if i < j {
      StaysFull(ss, es, i, j - 1);
      assert Follows(ss, es, j - 1);
      CountOnlyGrows(ss[j - 1], es[j - 1]);
    }
  }

  /**
   Once the count has reached the limit, no login passes the check until expiry or reset: with
   answered GETs the logins past it are, at every later point, among those past it at the start.
   */
  lemma {:induction false} NobodyPassesWhileFull(ss: seq<State>, es: seq<Event>, i: nat, j: nat)
    requires FromStart(ss, es) && i <= j <= |es| && Undisturbed(ss, es, i, j)
    requires Count(ss[i]) >= MAX_LOGIN_FAILURES && forall m :: i <= m < j && es[m].Check? ==> es[m].reply.Answered?
    ensures Past(ss[j]) <= Past(ss[i]) && forall m :: i <= m < j ==> Past(ss[m + 1]) <= Past(ss[m])
    decreases j
  {
    if i < j {
      NobodyPassesWhileFull(ss, es, i, j - 1);
      StaysFull(ss, es, i, j - 1);
      assert Follows(ss, es, j - 1);
      PastAfter(ss[j - 1], es[j - 1]);
    }
  }

  // ---------------------------------------------------------------- orphan counters

  predicate Owes(s: State, h: HandlerID) {
    h in s.procs && s.procs[h].ExpirePending?
  }

  /** A counter nobody is going to give a deadline. */
  ghost predicate Orphan(s: State) {
    s.counter.Some? && s.counter.value.deadline.None? && forall h :: !Owes(s, h)
  }

  /** The steps that lose the EXPIRE of a counter that has no deadline yet. */
  ghost predicate LosesExpire(s: State, e: Event) {
    || (e.Incr? && e.reply.ReplyLost? && !Live(s) && forall h :: !Owes(s, h))
    || (((e.Expire? && e.reply.NotExecuted?) || e.Abort?)
        && Owes(s, e.h) && s.counter.Some? && s.counter.value.deadline.None?
        && forall h :: Owes(s, h) ==> h == e.h)
  }

  /** A handler that owes an EXPIRE owes it until it moves itself. */
  lemma OwesUntilItMoves(s: State, e: Event, h: HandlerID)
    requires Step(s, e).Some? && Owes(s, h) && !((e.Expire? || e.Abort?) && e.h == h)
    ensures Owes(Step(s, e).value, h)
  {}

  lemma StillOwed(s: State, e: Event)
    requires Step(s, e).Some? && !Orphan(s) && !LosesExpire(s, e)
    requires Step(s, e).value.counter.Some? && Step(s, e).value.counter.value.deadline.None?
    ensures exists h :: Owes(Step(s, e).value, h)
  {
    if s.counter.Some? && s.counter.value.deadline.None? {
      var h :| Owes(s, h);
      if (e.Expire? || e.Abort?) && e.h == h {
        var h' :| Owes(s, h') && h' != h;
        OwesUntilItMoves(s, e, h');
      } else {
        OwesUntilItMoves(s, e, h);
      }
    } else if e.reply.ReplyLost? {
      var h :| Owes(s, h);
      OwesUntilItMoves(s, e, h);
    } else {
      assert Owes(Step(s, e).value, e.h);
    }
  }

  /** One step turns a sound counter into an orphan exactly when it loses the last pending EXPIRE. */
  lemma OrphanedIff(s: State, e: Event)
    requires Step(s, e).Some? && !Orphan(s)
    ensures Orphan(Step(s, e).value) <==> LosesExpire(s, e)
  {
    var s' := Step(s, e).value;
    if LosesExpire(s, e) {
      forall h | Owes(s', h) ensures false { assert Owes(s, h); }
    } else if s'.counter.Some? && s'.counter.value.deadline.None? {
      StillOwed(s, e);
    }
  }

  /** A counter is created by an INCR, so it never reads zero. */
  lemma {:induction false} CounterPositive(ss: seq<State>, es: seq<Event>, n: nat)
    requires FromStart(ss, es) && n <= |es|
    ensures ss[n].counter.Some? ==> ss[n].counter.value.count >= 1
  {
    if n > 0 {
      CounterPositive(ss, es, n - 1);
      assert Follows(ss, es, n - 1);
    }
  }

  /** Only a DEL gets rid of an orphan. */
  lemma OrphanStays(s: State, e: Event)
    requires Step(s, e).Some? && Orphan(s) && s.counter.value.count >= 1
    ensures Orphan(Step(s, e).value) <==> !Deleted(e)
  {
    var s' := Step(s, e).value;
    if !e.Tick? { assert !Owes(s, e.h); }
    forall h ensures !Owes(s', h) { assert !Owes(s, h); }
  }

  /** Step m lost the last pending EXPIRE, and no DEL came between it and point n. */
  ghost predicate LostAt(ss: seq<State>, es: seq<Event>, m: nat, n: nat)
    requires m < n <= |es| < |ss|
  {
    !Orphan(ss[m]) && LosesExpire(ss[m], es[m]) && forall d :: m < d < n ==> !Deleted(es[d])
  }

  lemma LostAtNext(ss: seq<State>, es: seq<Event>, m: nat, n: nat)
    requires m < n < |es| < |ss|
    ensures LostAt(ss, es, m, n + 1) <==> LostAt(ss, es, m, n) && !Deleted(es[n])
  {}

  /** In every run: the counter is an orphan exactly when some step lost its last EXPIRE and no DEL came since. */
  lemma {:induction false} OrphanIff(ss: seq<State>, es: seq<Event>, n: nat)
    requires FromStart(ss, es) && n <= |es|
    ensures Orphan(ss[n]) <==> exists m: nat :: m < n && LostAt(ss, es, m, n)
  {
    if n > 0 {
      var p := n - 1;
      OrphanIff(ss, es, p);
      assert Follows(ss, es, p);
      CounterPositive(ss, es, p);
      forall m: nat | m < p ensures LostAt(ss, es, m, n) <==> LostAt(ss, es, m, p) && !Deleted(es[p]) {
        LostAtNext(ss, es, m, p);
      }
      if Orphan(ss[p]) {
        OrphanStays(ss[p], es[p]);
        var m: nat :| m < p && LostAt(ss, es, m, p);
        assert LostAt(ss, es, m, n) <==> !Deleted(es[p]);
        assert !LostAt(ss, es, p, n);
      } else {
        OrphanedIff(ss[p], es[p]);
        assert LostAt(ss, es, p, n) <==> LosesExpire(ss[p], es[p]);
      }
    }
  }

  /** No Redis fault and no crash between INCR and EXPIRE. */
  predicate Faultless(s: State, e: Event) {
    && (e.Incr? || e.Expire? ==> e.reply.Answered?)
    && (e.Abort? ==> !Is(s, e.h, ExpirePending))
  }

  /** Without faults every counter without a deadline has its EXPIRE on the way, in every interleaving with resets. */
  lemma {:induction false} NoOrphan(ss: seq<State>, es: seq<Event>, n: nat)
    requires FromStart(ss, es) && n <= |es|
    requires forall i :: 0 <= i < |es| ==> Faultless(ss[i], es[i])
    ensures !Orphan(ss[n])
    ensures ss[n].procs == map[] && ss[n].counter.Some? ==> ss[n].counter.value.deadline.Some?
  {
    if n > 0 {
      NoOrphan(ss, es, n - 1);
      assert Follows(ss, es, n - 1) && Faultless(ss[n - 1], es[n - 1]);
      OrphanedIff(ss[n - 1], es[n - 1]);
    }
  }

  ghost predicate LockedForGood(s: State) {
    Orphan(s) && s.counter.value.count >= MAX_LOGIN_FAILURES && forall h :: h in s.procs ==> !s.procs[h].Checked?
  }

  lemma LockedStep(s: State, e: Event)
    requires Step(s, e).Some? && LockedForGood(s) && (e.Check? ==> e.reply.Answered?)
    ensures LockedForGood(Step(s, e).value) && Step(s, e).value.counter == s.counter
  {
    assert !e.Tick? && Owes(s, e.h) ==> false;
    var s' := Step(s, e).value;
    forall h ensures !Owes(s', h) { assert !Owes(s, h); }
  }

  /** An orphan at the limit with no login in flight locks the account for good: nobody passes, nothing expires. */
  lemma {:induction false} OrphanLocksForever(ss: seq<State>, es: seq<Event>, i: nat, j: nat)
    requires FromStart(ss, es) && i <= j <= |es| && LockedForGood(ss[i])
    requires forall m :: i <= m < j && es[m].Check? ==> es[m].reply.Answered?
    ensures LockedForGood(ss[j]) && ss[j].counter == ss[i].counter && Past(ss[j]) == {}
    decreases j
  {
    if i < j {
      OrphanLocksForever(ss, es, i, j - 1);
      assert Follows(ss, es, j - 1);
      LockedStep(ss[j - 1], es[j - 1]);
    }
  }

  /** A continuation of a run in which every later GET is answered. */
  ghost predicate Continues(ss: seq<State>, es: seq<Event>, ss': seq<State>, es': seq<Event>) {
    && FromStart(ss', es') && ss <= ss' && es <= es'
    && forall m :: |es| <= m < |es'| && es'[m].Check? ==> es'[m].reply.Answered?
  }

  /** Step m admits a login past the check. */
  predicate Admits(ss: seq<State>, es: seq<Event>, m: nat)
    requires m < |es| < |ss|
  {
    es[m].Check? && Is(ss[m + 1], es[m].h, Checked)
  }

  lemma ContinueBy(ss: seq<State>, es: seq<Event>, ss1: seq<State>, es1: seq<Event>, e: Event)
      returns (ss2: seq<State>, es2: seq<Event>)
    requires Continues(ss, es, ss1, es1) && Step(ss1[|es1|], e).Some? && (e.Check? ==> e.reply.Answered?)
    ensures Continues(ss, es, ss2, es2) && es2 == es1 + [e] && ss2[|es2|] == Step(ss1[|es1|], e).value
    ensures ss2 == ss1 + [ss2[|es2|]]
  {
    ss2, es2 := Extend(ss1, es1, e);
  }

  /** With room in the counter the next login passes. */
  lemma AdmitNext(ss: seq<State>, es: seq<Event>, ss1: seq<State>, es1: seq<Event>)
      returns (ss2: seq<State>, es2: seq<Event>)
    requires Continues(ss, es, ss1, es1) && Count(ss1[|es1|]) < MAX_LOGIN_FAILURES
    ensures Continues(ss, es, ss2, es2) && |es2| > |es| && Admits(ss2, es2, |es2| - 1)
  {
    var h := SomeoneNew(ss1[|es1|].procs.Keys);
    ss2, es2 := ContinueBy(ss, es, ss1, es1, Check(h, Answered));
  }

  /** A deadline passes. */
  lemma OutliveDeadline(ss: seq<State>, es: seq<Event>, ss1: seq<State>, es1: seq<Event>)
      returns (ss2: seq<State>, es2: seq<Event>)
    requires Continues(ss, es, ss1, es1) && Live(ss1[|es1|]) && ss1[|es1|].counter.value.deadline.Some?
    ensures Continues(ss, es, ss2, es2) && Count(ss2[|es2|]) == 0
  {
    var s := ss1[|es1|];
    ss2, es2 := ContinueBy(ss, es, ss1, es1, Tick(s.counter.value.deadline.value - s.now + 1));
  }

  /** Unless it is locked for good, some continuation empties the counter or finds room in it. */
  lemma MakeRoom(ss: seq<State>, es: seq<Event>) returns (ss': seq<State>, es': seq<Event>)
    requires FromStart(ss, es) && !LockedForGood(ss[|es|])
    ensures Continues(ss, es, ss', es') && Count(ss'[|es'|]) < MAX_LOGIN_FAILURES
  {
    var s := ss[|es|];
    ss', es' := ss, es;
    if Count(s) >= MAX_LOGIN_FAILURES {
      if s.counter.value.deadline.Some? {
        ss', es' := OutliveDeadline(ss, es, ss, es);
      } else if h :| Owes(s, h) {
        ss', es' := ContinueBy(ss, es, ss, es, Expire(h, Answered));
        ss', es' := OutliveDeadline(ss, es, ss', es');
      } else {
        var h :| h in s.procs && s.procs[h].Checked?;
        ss', es' := ContinueBy(ss, es, ss, es, Reset(h, Answered));
      }
    }
  }

  /**
   An account is locked for good exactly when no continuation with answered GETs ever admits
   another login past the check.
   */
  lemma LockedForGoodIff(ss: seq<State>, es: seq<Event>)
    requires FromStart(ss, es)
    ensures LockedForGood(ss[|es|]) <==>
      forall ss', es', m :: Continues(ss, es, ss', es') && |es| <= m < |es'| ==> !Admits(ss', es', m)
  {
    if LockedForGood(ss[|es|]) {
      forall ss', es', m | Continues(ss, es, ss', es') && |es| <= m < |es'| ensures !Admits(ss', es', m) {
        OrphanLocksForever(ss', es', |es|, m + 1);
      }
    } else {
      var ss1, es1 := MakeRoom(ss, es);
      var ss2, es2 := AdmitNext(ss, es, ss1, es1);
      assert Admits(ss2, es2, |es2| - 1);
    }
  }

  // ---------------------------------------------------------------- retry-after

  ghost predicate DeadlineNear(s: State) {
    s.counter.Some? && s.counter.value.deadline.Some? ==> s.counter.value.deadline.value <= s.now + LOCKOUT_WINDOW
  }

  lemma {:induction false} DeadlineWithinWindow(ss: seq<State>, es: seq<Event>, n: nat)
    requires FromStart(ss, es) && n <= |es|
    ensures DeadlineNear(ss[n])
  {
    if n > 0 {
      DeadlineWithinWindow(ss, es, n - 1);
      assert Follows(ss, es, n - 1);
    }
  }

  /**
   The Retry-After a locked account is given is never negative and never more than one window; it is
   a whole window when TTL fails, or finds no count or one without a deadline.
   */
  lemma RetryAfterBounds(ss: seq<State>, es: seq<Event>, n: nat)
    requires FromStart(ss, es) && n < |es| && es[n].ReadTTL?
    ensures es[n].h in ss[n + 1].procs && ss[n + 1].procs[es[n].h].Refused?
    ensures 0 <= ss[n + 1].procs[es[n].h].retryAfter <= LOCKOUT_WINDOW
    ensures !es[n].reply.Answered? || !Live(ss[n]) || ss[n].counter.value.deadline.None? ==>
      ss[n + 1].procs[es[n].h].retryAfter == LOCKOUT_WINDOW
  {
    assert Follows(ss, es, n);
    DeadlineWithinWindow(ss, es, n);
  }

  /** From i to j no EXPIRE is executed. */
  ghost predicate NoExpire(es: seq<Event>, i: nat, j: nat)
    requires i <= j <= |es|
  {
    forall m :: i <= m < j ==> !(es[m].Expire? && !es[m].reply.NotExecuted?)
  }

  /** An executed INCR that found no live counter and started a new count. */
  predicate StartsCount(s: State, e: Event) {
    e.Incr? && !e.reply.NotExecuted? && !Live(s)
  }

  lemma DeadlineStep(s: State, e: Event, t: int)
    requires Step(s, e).Some? && !StartsCount(s, e) && !(e.Expire? && !e.reply.NotExecuted?)
    requires s.counter.Some? ==> s.counter.value.deadline == Some(t)
    ensures var s' := Step(s, e).value; s'.counter.Some? ==> s'.counter.value.deadline == Some(t)
    ensures s.counter.Some? && !Deleted(e) ==> Step(s, e).value.counter.Some?
  {}

  lemma {:induction false} DeadlineKept(ss: seq<State>, es: seq<Event>, i: nat, j: nat, t: int)
    requires FromStart(ss, es) && i <= j <= |es| && NoExpire(es, i, j)
    requires ss[i].counter.Some? && ss[i].counter.value.deadline == Some(t)
    requires forall m :: i <= m < j ==> !StartsCount(ss[m], es[m])
    ensures ss[j].counter.Some? ==> ss[j].counter.value.deadline == Some(t)
    ensures (forall m :: i <= m < j ==> !Deleted(es[m])) ==> ss[j].counter.Some?
    decreases j
  {
    if i < j {
      DeadlineKept(ss, es, i, j - 1, t);
      assert Follows(ss, es, j - 1);
      DeadlineStep(ss[j - 1], es[j - 1], t);
    }
  }

  /**
   The Retry-After of a refused login is exact: while no EXPIRE is executed and no new count is
   started, the count it met is gone just after the reported wait, and without a DEL not before.
   */
  lemma RetryAfterExact(ss: seq<State>, es: seq<Event>, n: nat, j: nat)
    requires FromStart(ss, es) && n < j <= |es| && es[n].ReadTTL? && es[n].reply.Answered?
    requires Live(ss[n]) && ss[n].counter.value.deadline.Some? && NoExpire(es, n, j)
    requires forall m :: n <= m < j ==> !StartsCount(ss[m], es[m])
    ensures es[n].h in ss[n + 1].procs && ss[n + 1].procs[es[n].h].Refused?
    ensures var wait := ss[n + 1].procs[es[n].h].retryAfter;
      && (ss[j].now > ss[n].now + wait ==> !Live(ss[j]))
      && (ss[j].now <= ss[n].now + wait && (forall m :: n <= m < j ==> !Deleted(es[m])) ==> Live(ss[j]))
  {
    assert Follows(ss, es, n);
    DeadlineKept(ss, es, n, j, ss[n].counter.value.deadline.value);
  }
}
