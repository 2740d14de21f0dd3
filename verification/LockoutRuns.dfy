/** Runs that reach the bounds of the lockout counter, and runs that go wrong. */
module LockoutRuns {
  import opened Wrappers
  import opened LockoutMachine
  import opened LockoutTheorems
  import opened LockoutSliding

  /** A run with at most k logins past the check at once, every GET answered and no reset. */
  ghost predicate Plain(ss: seq<State>, es: seq<Event>, k: nat) {
    && FromStart(ss, es) && ChecksAnswered(es) && AtMostPast(ss, k)
    && forall i :: 0 <= i < |es| ==> !es[i].Reset?
  }

  function Times(t: int, n: nat): (r: seq<int>)
    ensures |r| == n
  {
    if n == 0 then [] else Times(t, n - 1) + [t]
  }

  lemma {:induction false} TimesJoin(t: int, m: nat, n: nat)
    ensures Times(t, m) + Times(t, n) == Times(t, m + n)
  {
    if n > 0 { TimesJoin(t, m, n - 1); }
  }

  /** The deadline a failure leaves: of the open window, or of the one it opens. */
  function DeadlineAfter(s: State): Option<int> {
    if Count(s) == 0 then Some(s.now + LOCKOUT_WINDOW) else s.counter.value.deadline
  }

  /** Between s and s' exactly n failures were recorded, all at one time, and no login is under way in s'. */
  predicate Failed(s: State, n: nat, s': State) {
    && s'.now == s.now && s'.procs == map[] && s'.failures == s.failures + Times(s.now, n)
    && Count(s') == Count(s) + n
    && (n > 0 ==> Live(s') && s'.counter.value.deadline == DeadlineAfter(s))
    && (n == 0 ==> s'.counter == s.counter)
  }

  lemma Start(k: nat) returns (ss: seq<State>, es: seq<Event>)
    ensures Plain(ss, es, k) && es == [] && ss == [Init(0)]
  {
    ss, es := [Init(0)], [];
    assert Past(ss[0]) == {};
  }

  /** One more step of a plain run. */
  lemma PlainStep(ss: seq<State>, es: seq<Event>, k: nat, e: Event) returns (ss': seq<State>, es': seq<Event>)
    requires Plain(ss, es, k) && Step(ss[|es|], e).Some? && !e.Reset? && (e.Check? ==> e.reply.Answered?)
    requires |Past(Step(ss[|es|], e).value)| <= k
    ensures Plain(ss', es', k) && es' == es + [e] && ss' == ss + [Step(ss[|es|], e).value]
  {
    ss', es' := Extend(ss, es, e);
  }

  /** One login fails from start to finish, alone. */
  lemma FailOnce(ss: seq<State>, es: seq<Event>, k: nat) returns (ss': seq<State>, es': seq<Event>)
    requires Plain(ss, es, k) && 1 <= k
    requires ss[|es|].procs == map[] && Count(ss[|es|]) < MAX_LOGIN_FAILURES
    ensures Plain(ss', es', k) && Failed(ss[|es|], 1, ss'[|es'|])
  {
    var s := ss[|es|];
    assert Times(s.now, 1) == [s.now];
    assert Past(Step(s, Check(0, Answered)).value) == {0};
    ss', es' := PlainStep(ss, es, k, Check(0, Answered));
    assert Past(Step(ss'[|es'|], Incr(0, Answered)).value) == {};
    ss', es' := PlainStep(ss', es', k, Incr(0, Answered));
    if Count(s) == 0 {
      assert Past(Step(ss'[|es'|], Expire(0, Answered)).value) == {};
      ss', es' := PlainStep(ss', es', k, Expire(0, Answered));
    }
    assert ss'[|es'|].procs == map[];
  }

  lemma {:induction false} FailTimes(ss: seq<State>, es: seq<Event>, k: nat, n: nat)
      returns (ss': seq<State>, es': seq<Event>)
    requires Plain(ss, es, k) && 1 <= k && ss[|es|].procs == map[] && Count(ss[|es|]) + n <= MAX_LOGIN_FAILURES
    ensures Plain(ss', es', k) && Failed(ss[|es|], n, ss'[|es'|])
  {
    ss', es' := ss, es;
    var log, t := ss[|es|].failures, ss[|es|].now;
    if n == 0 {
      assert log + Times(t, 0) == log;
    } else {
      assert log + Times(t, n) == log + Times(t, n - 1) + [t];
      assert Times(t, 1) == [t];
      ss', es' := FailTimes(ss, es, k, n - 1);
      ss', es' := FailOnce(ss', es', k);
    }
  }

  /** The handlers 0..j-1 are all past the check. */
  function FirstPast(j: nat): map<HandlerID, Pc> {
    if j == 0 then map[] else FirstPast(j - 1)[j - 1 := Checked]
  }

  lemma {:induction false} FirstPastKeys(j: nat, h: HandlerID)
    ensures h in FirstPast(j) <==> h < j
    ensures h in FirstPast(j) ==> FirstPast(j)[h] == Checked
  {
    if j > 0 { FirstPastKeys(j - 1, h); }
  }

  lemma {:induction false} PastOfFirst(s: State, j: nat)
    requires s.procs == FirstPast(j)
    ensures |Past(s)| == j
    decreases j
  {
    if j == 0 {
      assert Past(s) == {};
    } else {
      var t := s.(procs := FirstPast(j - 1));
      PastOfFirst(t, j - 1);
      FirstPastKeys(j - 1, j - 1);
      assert Past(s) == Past(t) + {j - 1};
    }
  }

  /** Logins 0..j-1 pass the check before any of them fails. */
  lemma {:induction false} CheckTogether(ss: seq<State>, es: seq<Event>, k: nat, j: nat)
      returns (ss': seq<State>, es': seq<Event>)
    requires Plain(ss, es, k) && j <= k && ss[|es|].procs == map[] && Count(ss[|es|]) == MAX_LOGIN_FAILURES - 1
    ensures Plain(ss', es', k) && ss'[|es'|] == ss[|es|].(procs := FirstPast(j))
  {
    ss', es' := ss, es;
    if j > 0 {
      ss', es' := CheckTogether(ss, es, k, j - 1);
      FirstPastKeys(j - 1, j - 1);
      var next := Step(ss'[|es'|], Check(j - 1, Answered)).value;
      assert next.procs == FirstPast(j);
      PastOfFirst(next, j);
      ss', es' := PlainStep(ss', es', k, Check(j - 1, Answered));
    }
  }

  /** Then all but j of them have failed. */
  predicate FailedBut(s: State, k: nat, j: nat, s': State)
    requires j <= k
  {
    s'.procs == FirstPast(j) && Failed(s, k - j, s'.(procs := map[]))
  }

  lemma {:induction false} FailTogether(ss: seq<State>, es: seq<Event>, k: nat, j: nat)
      returns (ss': seq<State>, es': seq<Event>)
    requires Plain(ss, es, k) && j <= k && ss[|es|].procs == map[] && Count(ss[|es|]) == MAX_LOGIN_FAILURES - 1
    ensures Plain(ss', es', k) && FailedBut(ss[|es|], k, j, ss'[|es'|])
    decreases k - j
  {
    var s := ss[|es|];
    if j == k {
      ss', es' := CheckTogether(ss, es, k, k);
      assert s.failures + Times(s.now, 0) == s.failures;
    } else {
      ss', es' := FailTogether(ss, es, k, j + 1);
      FirstPastKeys(j, j);
      var next := Step(ss'[|es'|], Incr(j, Answered)).value;
      assert next.procs == FirstPast(j);
      PastOfFirst(next, j);
      assert s.failures + Times(s.now, k - j) == s.failures + Times(s.now, k - j - 1) + [s.now];
      ss', es' := PlainStep(ss', es', k, Incr(j, Answered));
    }
  }

  /** k logins that all checked at count 4 all get to fail: the counter runs to MAX_LOGIN_FAILURES - 1 + k. */
  lemma FillUp(ss: seq<State>, es: seq<Event>, k: nat) returns (ss': seq<State>, es': seq<Event>)
    requires Plain(ss, es, k) && 1 <= k && ss[|es|].procs == map[] && Count(ss[|es|]) < MAX_LOGIN_FAILURES
    ensures Plain(ss', es', k) && Failed(ss[|es|], MAX_LOGIN_FAILURES - 1 + k - Count(ss[|es|]), ss'[|es'|])
  {
    var s := ss[|es|];
    var first := MAX_LOGIN_FAILURES - 1 - Count(s);
    var ss1, es1 := FailTimes(ss, es, k, first);
    ss', es' := FailTogether(ss1, es1, k, 0);
    TimesJoin(s.now, first, k);
    assert s.failures + (Times(s.now, first) + Times(s.now, k)) == s.failures + Times(s.now, first) + Times(s.now, k);
  }

  lemma {:induction false} SameFailOpens(ss: seq<State>, es: seq<Event>, ss': seq<State>, es': seq<Event>, n: nat)
    requires n <= |es| < |ss| && ss <= ss' && es <= es' && |es'| < |ss'|
    ensures FailOpens(ss', es', n) == FailOpens(ss, es, n)
  {
    if n > 0 { SameFailOpens(ss, es, ss', es', n - 1); }
  }

  /** A login slips past a full counter on a failed GET and fails. */
  lemma SlipPast(ss: seq<State>, es: seq<Event>, k: nat) returns (ss': seq<State>, es': seq<Event>)
    requires FromStart(ss, es) && AtMostPast(ss, k) && 1 <= k
    requires ss[|es|].procs == map[] && Count(ss[|es|]) >= MAX_LOGIN_FAILURES
    ensures FromStart(ss', es') && AtMostPast(ss', k) && ss'[|es'|].procs == map[]
    ensures Count(ss'[|es'|]) == Count(ss[|es|]) + 1
    ensures FailOpens(ss', es', |es'|) == FailOpens(ss, es, |es|) + 1
  {
    var ss1, es1 := Extend(ss, es, Check(0, NotExecuted));
    assert Past(ss1[|es1|]) == {0};
    ss', es' := Extend(ss1, es1, Incr(0, Answered));
    assert Past(ss'[|es'|]) == {};
    assert ss'[|es'|].procs == map[];
    SameFailOpens(ss, es, ss', es', |es|);
  }

  /** The overshoot bound is attained for every k and every number f of failed GETs on a full counter. */
  lemma {:induction false} OvershootAttained(k: nat, f: nat) returns (ss: seq<State>, es: seq<Event>)
    requires 1 <= k
    ensures FromStart(ss, es) && AtMostPast(ss, k) && ss[|es|].procs == map[]
    ensures FailOpens(ss, es, |es|) == f && (f == 0 ==> ChecksAnswered(es))
    ensures Count(ss[|es|]) == MAX_LOGIN_FAILURES - 1 + k + f
  {
    if f == 0 {
      ss, es := Start(k);
      ss, es := FillUp(ss, es, k);
      NoFailOpens(ss, es, |es|);
    } else {
      ss, es := OvershootAttained(k, f - 1);
      ss, es := SlipPast(ss, es, k);
    }
  }

  /** One lost INCR reply on a fresh counter and four ordinary failures are enough to lock for good. */
  lemma LockedForGoodHappens() returns (ss: seq<State>, es: seq<Event>)
    ensures FromStart(ss, es) && ChecksAnswered(es) && LockedForGood(ss[|es|])
  {
    ss, es := Start(1);
    assert Past(Step(ss[0], Check(0, Answered)).value) == {0};
    ss, es := PlainStep(ss, es, 1, Check(0, Answered));
    assert Past(Step(ss[1], Incr(0, ReplyLost)).value) == {};
    ss, es := PlainStep(ss, es, 1, Incr(0, ReplyLost));
    assert ss[2].procs == map[];
    ss, es := FailTimes(ss, es, 1, MAX_LOGIN_FAILURES - 1);
  }

  // ---------------------------------------------------------------- the sliding bound is attained

  lemma {:induction false} SpanOfTimes(log: seq<int>, t: int, n: nat, from: int)
    ensures |InSpan(log + Times(t, n), from)| ==
            |InSpan(log, from)| + if from <= t < from + LOCKOUT_WINDOW then n else 0
  {
    if n == 0 {
      assert log + Times(t, n) == log;
    } else {
      SpanOfTimes(log, t, n - 1, from);
      assert (log + Times(t, n))[..|log| + n - 1] == log + Times(t, n - 1);
    }
  }

  lemma SpanOfThree(m: nat, n: nat)
    ensures |InSpan(Times(0, 1) + Times(LOCKOUT_WINDOW, m) + Times(LOCKOUT_WINDOW + 1, n), LOCKOUT_WINDOW)| == m + n
  {
    var first := Times(0, 1);
    SpanOfTimes([], 0, 1, LOCKOUT_WINDOW);
    assert [] + first == first;
    SpanOfTimes(first, LOCKOUT_WINDOW, m, LOCKOUT_WINDOW);
    SpanOfTimes(first + Times(LOCKOUT_WINDOW, m), LOCKOUT_WINDOW + 1, n, LOCKOUT_WINDOW);
  }

  lemma Wait(ss: seq<State>, es: seq<Event>, k: nat, d: nat) returns (ss': seq<State>, es': seq<Event>)
    requires Plain(ss, es, k)
    ensures Plain(ss', es', k) && ss'[|es'|] == ss[|es|].(now := ss[|es|].now + d)
  {
    assert Past(Step(ss[|es|], Tick(d)).value) == Past(ss[|es|]);
    ss', es' := PlainStep(ss, es, k, Tick(d));
  }

  /** One failure opens a window and all the others it has room for come on its last instant. */
  lemma FirstWindow(k: nat) returns (ss: seq<State>, es: seq<Event>)
    requires 1 <= k
    ensures Plain(ss, es, k)
    ensures var s := ss[|es|];
      && s.now == LOCKOUT_WINDOW && s.procs == map[]
      && s.counter.Some? && s.counter.value.deadline == Some(LOCKOUT_WINDOW)
      && s.failures == Times(0, 1) + Times(LOCKOUT_WINDOW, MAX_LOGIN_FAILURES - 2 + k)
  {
    ss, es := Start(k);
    ss, es := FailOnce(ss, es, k);
    assert [] + Times(0, 1) == Times(0, 1);
    ss, es := Wait(ss, es, k, LOCKOUT_WINDOW);
    ss, es := FillUp(ss, es, k);
  }

  /** On the first instant after it the next window is filled at once. */
  lemma SecondWindow(k: nat) returns (ss: seq<State>, es: seq<Event>)
    requires 1 <= k
    ensures Plain(ss, es, k)
    ensures ss[|es|].failures ==
      Times(0, 1) + Times(LOCKOUT_WINDOW, MAX_LOGIN_FAILURES - 2 + k) +
      Times(LOCKOUT_WINDOW + 1, MAX_LOGIN_FAILURES - 1 + k)
  {
    ss, es := FirstWindow(k);
    ss, es := Wait(ss, es, k, 1);
    ss, es := FillUp(ss, es, k);
  }

  /** So for every k the sliding bound is tight, without any reset, error or failed GET. */
  lemma SlidingAttained(k: nat) returns (ss: seq<State>, es: seq<Event>)
    requires 1 <= k
    ensures Plain(ss, es, k)
    ensures |InSpan(ss[|es|].failures, LOCKOUT_WINDOW)| == 2 * (MAX_LOGIN_FAILURES - 1 + k) - 1
  {
    ss, es := SecondWindow(k);
    SpanOfThree(MAX_LOGIN_FAILURES - 2 + k, MAX_LOGIN_FAILURES - 1 + k);
  }
}
