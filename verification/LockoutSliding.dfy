/**
 What the fixed window of the lockout counter promises about any span of that length: a sliding
 bound over all runs, whatever interleaves, fails or crashes.
 */
module LockoutSliding {
  import opened Wrappers
  import opened LockoutMachine
  import opened LockoutTheorems

  // ---------------------------------------------------------------- the log since the last DEL

  /** How many failures were recorded before the last DEL. */
  function Base(ss: seq<State>, es: seq<Event>, n: nat): nat
    requires n <= |es| < |ss|
  {
    if n == 0 then 0
    else if Deleted(es[n - 1]) then |ss[n - 1].failures|
    else Base(ss, es, n - 1)
  }

  ghost predicate Ordered(log: seq<int>, now: int) {
    && (forall i, j :: 0 <= i <= j < |log| ==> log[i] <= log[j])
    && (forall i :: 0 <= i < |log| ==> log[i] <= now)
  }

  /** Two failures 2c - 1 apart are more than a window apart. */
  ghost predicate SpreadOut(c: nat, log: seq<int>) {
    forall i :: 0 <= i <= i + 2 * c - 1 < |log| ==> log[i] + LOCKOUT_WINDOW < log[i + 2 * c - 1]
  }

  /** Everything c places before position f, and earlier, is more than a window older than it. */
  ghost predicate FarBehind(c: nat, log: seq<int>, f: int) {
    forall i :: 0 <= i <= f - c && f < |log| ==> log[i] + LOCKOUT_WINDOW < log[f]
  }

  /** The log since the last DEL; its last `count` failures are those of the current window. */
  ghost predicate LogOk(c: nat, log: seq<int>, counter: Option<Counter>) {
    match counter
    case None => log == []
    case Some(k) =>
      var f := |log| - k.count;
      && 1 <= k.count <= c && 0 <= f && SpreadOut(c, log) && FarBehind(c, log, f)
      && (k.deadline.Some? ==> log[f] + LOCKOUT_WINDOW <= k.deadline.value)
  }

  lemma OrderedGrows(log: seq<int>, now: int, later: int)
    requires Ordered(log, now) && now <= later
    ensures Ordered(log, later) && Ordered(log + [later], later)
  {}

  /** A failure counted in the window that started at f. */
  lemma GrowsInWindow(c: nat, log: seq<int>, now: int, f: int)
    requires Ordered(log, now) && SpreadOut(c, log) && FarBehind(c, log, f) && 0 <= f < |log| < f + c
    ensures SpreadOut(c, log + [now]) && FarBehind(c, log + [now], f)
  {
    var n := |log| - (2 * c - 1);
    assert n >= 0 ==> log[n] + LOCKOUT_WINDOW < log[f];
  }

  /** A failure that opens a window, after the one that started at f has passed. */
  lemma OpensWindow(c: nat, log: seq<int>, now: int, f: int)
    requires Ordered(log, now) && SpreadOut(c, log) && 0 <= f < |log| <= f + c
    requires log[f] + LOCKOUT_WINDOW < now
    ensures SpreadOut(c, log + [now]) && FarBehind(c, log + [now], |log|)
  {}

  lemma LogIncr(c: nat, log: seq<int>, s: State)
    requires LogOk(c, log, s.counter) && Ordered(log, s.now) && Count(Incremented(s)) <= c
    ensures LogOk(c, log + [s.now], Incremented(s).counter)
  {
    if s.counter.Some? {
      var f := |log| - s.counter.value.count;
      if Live(s) { GrowsInWindow(c, log, s.now, f); } else { OpensWindow(c, log, s.now, f); }
    }
  }

  /** An EXPIRE, however late, sets a deadline a whole window after now. */
  lemma LogExpire(c: nat, log: seq<int>, s: State)
    requires LogOk(c, log, s.counter) && Ordered(log, s.now)
    ensures LogOk(c, log, WithExpiry(s).counter)
  {}

  /** What a step does to counter and log: nothing, an INCR, an EXPIRE or a DEL. */
  lemma StepLog(s: State, e: Event)
    requires Step(s, e).Some?
    ensures var s' := Step(s, e).value;
      && s.now <= s'.now
      && (s'.failures == s.failures || (s'.failures == s.failures + [s.now] && s'.now == s.now && !Deleted(e)))
      && (s'.counter, s'.failures) ==
           if Deleted(e) then (None, s.failures)
           else if s'.failures != s.failures then (Incremented(s).counter, s.failures + [s.now])
           else if e.Expire? && !e.reply.NotExecuted? then (WithExpiry(s).counter, s.failures)
           else (s.counter, s.failures)
  {
    if e.Incr? && !e.reply.NotExecuted? { assert |s.failures + [s.now]| != |s.failures|; }
  }

  lemma LogStep(c: nat, base: nat, s: State, e: Event)
    requires Step(s, e).Some? && !Deleted(e) && base <= |s.failures| <= |Step(s, e).value.failures|
    requires Ordered(s.failures, s.now) && LogOk(c, s.failures[base..], s.counter) && Count(Step(s, e).value) <= c
    ensures LogOk(c, Step(s, e).value.failures[base..], Step(s, e).value.counter)
  {
    StepLog(s, e);
    var s', log := Step(s, e).value, s.failures[base..];
    if s'.failures != s.failures {
      assert s'.failures[base..] == log + [s.now];
      LogIncr(c, log, s);
    } else if e.Expire? && !e.reply.NotExecuted? {
      LogExpire(c, log, s);
    }
  }

  /** No count of the run up to point n exceeds c. */
  ghost predicate CountsUpTo(ss: seq<State>, n: nat, c: nat)
    requires n < |ss|
  {
    forall m :: 0 <= m <= n ==> Count(ss[m]) <= c
  }

  lemma {:induction false} LogInEveryRun(ss: seq<State>, es: seq<Event>, n: nat, c: nat)
    requires FromStart(ss, es) && n <= |es| && CountsUpTo(ss, n, c)
    ensures Ordered(ss[n].failures, ss[n].now) && Base(ss, es, n) <= |ss[n].failures|
    ensures LogOk(c, ss[n].failures[Base(ss, es, n)..], ss[n].counter)
  {
    if n > 0 {
      LogInEveryRun(ss, es, n - 1, c);
      var s, e := ss[n - 1], es[n - 1];
      assert Follows(ss, es, n - 1);
      StepLog(s, e);
      OrderedGrows(s.failures, s.now, ss[n].now);
      if !Deleted(e) { LogStep(c, Base(ss, es, n - 1), s, e); }
    }
  }

  // ---------------------------------------------------------------- two failures far apart in the log

  /** Some DEL before point n came no earlier than time t and no later than time u. */
  ghost predicate DeletedBetween(ss: seq<State>, es: seq<Event>, n: nat, t: int, u: int)
    requires n <= |es| < |ss|
  {
    exists m :: 0 <= m < n && Deleted(es[m]) && t <= ss[m].now <= u
  }

  lemma {:induction false} BaseIsADel(ss: seq<State>, es: seq<Event>, n: nat) returns (m: nat)
    requires FromStart(ss, es) && n <= |es| && Base(ss, es, n) > 0
    ensures m < n && Deleted(es[m]) && Base(ss, es, n) == |ss[m].failures|
  {
    if Deleted(es[n - 1]) { m := n - 1; } else { m := BaseIsADel(ss, es, n - 1); }
  }

  lemma {:induction false} LogKept(ss: seq<State>, es: seq<Event>, m: nat, n: nat)
    requires FromStart(ss, es) && m <= n <= |es|
    ensures ss[m].failures <= ss[n].failures && ss[m].now <= ss[n].now
    decreases n
  {
    if m < n {
      LogKept(ss, es, m, n - 1);
      assert Follows(ss, es, n - 1);
      StepLog(ss[n - 1], es[n - 1]);
    }
  }

  /** A failure just recorded and the one 2c - 1 before it. */
  lemma NewestFarApart(ss: seq<State>, es: seq<Event>, n: nat, c: nat, i: nat)
    requires FromStart(ss, es) && 0 < n <= |es| && CountsUpTo(ss, n, c)
    requires i + 2 * c == |ss[n].failures| == |ss[n - 1].failures| + 1 && c > 0
    ensures var log := ss[n].failures; var j := i + 2 * c - 1;
      log[i] + LOCKOUT_WINDOW < log[j] || DeletedBetween(ss, es, n, log[i], log[j])
  {
    var log, base := ss[n].failures, Base(ss, es, n);
    LogInEveryRun(ss, es, n, c);
    assert Follows(ss, es, n - 1);
    StepLog(ss[n - 1], es[n - 1]);
    if base <= i {
      assert log[base..][i - base] == log[i] && log[base..][i - base + 2 * c - 1] == log[i + 2 * c - 1];
    } else {
      var m := BaseIsADel(ss, es, n);
      LogInEveryRun(ss, es, m, c);
      LogKept(ss, es, m, n);
      LogKept(ss, es, m, n - 1);
      assert ss[m].failures[i] == log[i];
    }
  }

  /** In every run two failures 2c - 1 apart are more than a window apart or have a DEL between them. */
  lemma {:induction false} FarApart(ss: seq<State>, es: seq<Event>, n: nat, c: nat, i: nat)
    requires FromStart(ss, es) && n <= |es| && CountsUpTo(ss, n, c) && c > 0 && i + 2 * c - 1 < |ss[n].failures|
    ensures var log := ss[n].failures; var j := i + 2 * c - 1;
      log[i] + LOCKOUT_WINDOW < log[j] || DeletedBetween(ss, es, n, log[i], log[j])
  {
    if n > 0 {
      assert Follows(ss, es, n - 1);
      StepLog(ss[n - 1], es[n - 1]);
      if i + 2 * c - 1 < |ss[n - 1].failures| {
        FarApart(ss, es, n - 1, c, i);
      } else {
        NewestFarApart(ss, es, n, c, i);
      }
    }
  }

  // ---------------------------------------------------------------- the bound

  /** The failures recorded in the half-open span [from, from + LOCKOUT_WINDOW). */
  function InSpan(log: seq<int>, from: int): seq<int> {
    if log == [] then []
    else
      var last := log[|log| - 1];
      InSpan(log[..|log| - 1], from) + (if from <= last < from + LOCKOUT_WINDOW then [last] else [])
  }

  /** In a sorted log the span is one contiguous stretch. */
  lemma {:induction false} SpanIsStretch(log: seq<int>, from: int) returns (lo: nat)
    requires forall i, j :: 0 <= i <= j < |log| ==> log[i] <= log[j]
    ensures lo + |InSpan(log, from)| <= |log|
    ensures forall i :: lo <= i < lo + |InSpan(log, from)| ==> from <= log[i] < from + LOCKOUT_WINDOW
    ensures lo + |InSpan(log, from)| < |log| ==>
      log[lo + |InSpan(log, from)|] >= from + LOCKOUT_WINDOW || InSpan(log, from) == []
  {
    if log == [] { return 0; }
    var init, last := log[..|log| - 1], log[|log| - 1];
    lo := SpanIsStretch(init, from);
    var k := |InSpan(init, from)|;
    if from <= last < from + LOCKOUT_WINDOW {
      if k == 0 { lo := |log| - 1; }
    }
  }

  /** No DEL is executed in the span. */
  ghost predicate Undeleted(ss: seq<State>, es: seq<Event>, n: nat, from: int)
    requires n <= |es| < |ss|
  {
    forall m :: 0 <= m < n && Deleted(es[m]) ==> !(from <= ss[m].now < from + LOCKOUT_WINDOW)
  }

  lemma SpanUpTo(ss: seq<State>, es: seq<Event>, n: nat, c: nat, from: int)
    requires FromStart(ss, es) && n <= |es| && CountsUpTo(ss, n, c) && c > 0 && Undeleted(ss, es, n, from)
    ensures |InSpan(ss[n].failures, from)| <= 2 * c - 1
  {
    LogInEveryRun(ss, es, n, c);
    var log := ss[n].failures;
    var lo := SpanIsStretch(log, from);
    if |InSpan(log, from)| > 2 * c - 1 {
      FarApart(ss, es, n, c, lo);
    }
  }

  lemma {:induction false} FailOpensGrow(ss: seq<State>, es: seq<Event>, m: nat, n: nat)
    requires m <= n <= |es| < |ss|
    ensures FailOpens(ss, es, m) <= FailOpens(ss, es, n)
    decreases n
  {
    if m < n { FailOpensGrow(ss, es, m, n - 1); }
  }

  /**
   A fixed window gives a sliding bound. In every run with at most k logins past the check at once,
   in any interleaving and with any fault or crash, a half-open span as long as the window in which
   no DEL is executed holds at most 2c - 1 recorded failures, where c is the overshoot bound
   MAX_LOGIN_FAILURES - 1 + k plus the logins that failed GETs let through a full counter.
   */
  lemma SlidingBound(ss: seq<State>, es: seq<Event>, k: nat, n: nat, from: int)
    requires FromStart(ss, es) && n <= |es| && AtMostPast(ss, k) && Undeleted(ss, es, n, from)
    ensures |InSpan(ss[n].failures, from)| <= 2 * (MAX_LOGIN_FAILURES - 1 + k + FailOpens(ss, es, n)) - 1
  {
    var c := MAX_LOGIN_FAILURES - 1 + k + FailOpens(ss, es, n);
    forall m | 0 <= m <= n ensures Count(ss[m]) <= c {
      OvershootBound(ss, es, k, m);
      FailOpensGrow(ss, es, m, n);
    }
    SpanUpTo(ss, es, n, c, from);
  }

  /** With one login past the check at a time and every GET answered: 2 * MAX_LOGIN_FAILURES - 1. */
  lemma SlidingBoundOneAtATime(ss: seq<State>, es: seq<Event>, n: nat, from: int)
    requires FromStart(ss, es) && n <= |es| && ChecksAnswered(es) && AtMostPast(ss, 1) && Undeleted(ss, es, n, from)
    ensures |InSpan(ss[n].failures, from)| <= 2 * MAX_LOGIN_FAILURES - 1
  {
    SlidingBound(ss, es, 1, n, from);
    NoFailOpens(ss, es, n);
  }
}
