/** Exactly when a session is over: no continuation of the run mints or redeems a token of it. */
module SessionFinality {
  import opened Wrappers
  import opened Traces
  import opened SessionMachine
  import opened SessionInvariant
  import opened SessionTheorems

  /** Some running handler has already had this token accepted. */
  predicate Verified(s: State, id: TokenID) {
    exists h :: h in s.procs && (s.procs[h] == RefreshVerified(id) || s.procs[h] == LogoutVerified(id))
  }

  /** A handler can get as far as GETDEL with this token. */
  predicate Presentable(s: State, id: TokenID) {
    id in s.ledger && (Unexpired(s, id) || Verified(s, id))
  }

  /** An owner from which the session can still go on. */
  predicate Usable(s: State, c: Custodian) {
    match c
    case AtRedis(id) => Live(s, id) && Presentable(s, id)
    case AtHandler(h) =>
      h in s.procs &&
      match s.procs[h]
      case RefreshClaimed(_) => true
      case RefreshTimed(_, _, _) => true
      case LoginMinted(id) => Presentable(s, id)
      case RefreshMinted(_, child, _) => Presentable(s, child)
      case _ => false
  }

  /** This step mints into the session or takes a record of it. */
  predicate Touches(s: State, e: Event, root: TokenID) {
    && Step(s, e).Some?
    && (MintsInto(s, e) == Some(root) ||
        (Takes(s, e).Some? && Takes(s, e).value in s.ledger && s.ledger[Takes(s, e).value].root == root))
  }

  ghost predicate TouchedIn(ss: seq<State>, es: seq<Event>, root: TokenID) {
    |ss| == |es| + 1 && exists i :: 0 <= i < |es| && Touches(ss[i], es[i], root)
  }

  /** Nothing that can still happen touches the session. */
  ghost predicate Ended(s: State, root: TokenID) {
    forall ss, es :: IsRun(ss, es) && ss[0] == s ==> !TouchedIn(ss, es, root)
  }

  /** The session exists and has no usable owner. */
  ghost predicate Spent(s: State, root: TokenID) {
    root in s.ledger && forall c :: Owns(s, c, root) ==> !Usable(s, c)
  }

  // ---------------------------------------------------------------- a spent session stays spent

  lemma VerifiedBefore(s: State, e: Event, id: TokenID)
    requires Step(s, e).Some? && Verified(Step(s, e).value, id)
    ensures Verified(s, id) || (id in s.ledger && Unexpired(s, id))
  {
    var s' := Step(s, e).value;
    var h :| h in s'.procs && (s'.procs[h] == RefreshVerified(id) || s'.procs[h] == LogoutVerified(id));
    OthersStay(s, e);
  }

  lemma PresentableBefore(s: State, e: Event, id: TokenID)
    requires Step(s, e).Some? && id in s.ledger && Presentable(Step(s, e).value, id)
    ensures Presentable(s, id)
  {
    StepGrows(s, e);
    if Verified(Step(s, e).value, id) { VerifiedBefore(s, e, id); }
  }

  /** A live record that this step did not write was live before. */
  lemma LiveBefore(s: State, e: Event, id: TokenID)
    requires Step(s, e).Some? && Live(Step(s, e).value, id) && Stores(s, e) != Some(id)
    ensures Live(s, id)
  {
    StepRedis(s, e);
    StepGrows(s, e);
  }

  lemma NotStoredTwice(s: State, e: Event, id: TokenID)
    requires HistoryOk(s) && Step(s, e).Some? && id in s.redis
    ensures Stores(s, e) != Some(id)
  {
    if e.LoginStore? || e.RefreshStore? { assert AboutToStore(s.procs[e.h]).Some?; }
  }

  lemma HandlerBefore(s: State, e: Event, h: HandlerID)
    requires PcsOk(s) && Step(s, e).Some? && h in s.procs && Holding(s.procs[h]).Some?
    requires !GivesUp(MoveOf(s, e), AtHandler(h)) && Usable(Step(s, e).value, AtHandler(h))
    ensures Usable(s, AtHandler(h))
  {
    assert PcOk(s, s.procs[h]);
    OthersStay(s, e);
    if Mover(e) != Some(h) && AboutToStore(s.procs[h]).Some? {
      PresentableBefore(s, e, AboutToStore(s.procs[h]).value);
    }
  }

  /** What an owner that stays put can do after a step it could do before. */
  lemma UsableBefore(s: State, e: Event, c: Custodian, root: TokenID)
    requires Inv(s) && Step(s, e).Some? && Owns(s, c, root)
    requires !GivesUp(MoveOf(s, e), c) && Owns(Step(s, e).value, c, root) && Usable(Step(s, e).value, c)
    ensures Usable(s, c)
  {
    var s' := Step(s, e).value;
    match c
    case AtRedis(id) =>
      NotStoredTwice(s, e, id);
      LiveBefore(s, e, id);
      PresentableBefore(s, e, id);
    case AtHandler(h) =>
      HandlerBefore(s, e, h);
  }

  /** The owner that hands a session on was usable if the one that receives it is. */
  lemma UsableHandedOn(s: State, e: Event, c': Custodian, root: TokenID) returns (c: Custodian)
    requires Inv(s) && Step(s, e).Some? && root in s.ledger
    requires Receives(s, MoveOf(s, e), c', root) && Usable(Step(s, e).value, c')
    ensures Owns(s, c, root) && Usable(s, c)
  {
    StepMoves(s, e);
    match MoveOf(s, e)
    case ToRedis(h, id) =>
      c := AtHandler(h);
      assert PcOk(s, s.procs[h]);
      PresentableBefore(s, e, id);
    case ToHandler(h, id) =>
      c := AtRedis(id);
      assert s.procs[h] == RefreshVerified(id);
    case Rotate(h, _, _) =>
      c := AtHandler(h);
    case _ =>
  }

  lemma SpentStays(s: State, e: Event, root: TokenID)
    requires Inv(s) && Step(s, e).Some? && Spent(s, root)
    ensures Spent(Step(s, e).value, root)
  {
    var s' := Step(s, e).value;
    StepGrows(s, e);
    StepMoves(s, e);
    InvAllMinted(s);
    forall c' | Owns(s', c', root) ensures !Usable(s', c') {
      if Usable(s', c') {
        OwnerAfter(s, s', MoveOf(s, e), c', root);
        if Receives(s, MoveOf(s, e), c', root) {
          var c := UsableHandedOn(s, e, c', root);
          assert false;
        } else {
          UsableBefore(s, e, c', root);
        }
      }
    }
  }

  lemma SpentIsInert(s: State, e: Event, root: TokenID)
    requires Inv(s) && Step(s, e).Some? && Spent(s, root)
    ensures !Touches(s, e, root)
  {
    if Takes(s, e).Some? {
      var id := Takes(s, e).value;
      assert RecordOk(s, id);
      assert Verified(s, id);
      assert Owns(s, AtRedis(id), s.ledger[id].root) && Usable(s, AtRedis(id));
    }
    if e.RefreshMint? {
      assert PcOk(s, s.procs[e.h]);
      assert Owns(s, AtHandler(e.h), s.ledger[s.procs[e.h].id].root) && Usable(s, AtHandler(e.h));
    }
  }

  lemma {:induction false} SpentForever(ss: seq<State>, es: seq<Event>, root: TokenID, n: nat)
    requires IsRun(ss, es) && n <= |es| && Inv(ss[0]) && Spent(ss[0], root)
    ensures Inv(ss[n]) && Spent(ss[n], root)
  {
    if n > 0 {
      SpentForever(ss, es, root, n - 1);
      assert Follows(ss, es, n - 1);
      StepInv(ss[n - 1], es[n - 1]);
      SpentStays(ss[n - 1], es[n - 1], root);
    }
  }

  // ---------------------------------------------------------------- a usable owner can be used

  /** A run whose last step touches the session. */
  ghost predicate EndsTouching(s: State, ss: seq<State>, es: seq<Event>, root: TokenID) {
    && IsRun(ss, es) && ss[0] == s && es != []
    && Touches(ss[|es| - 1], es[|es| - 1], root)
  }

  lemma TouchNow(s: State, e: Event, root: TokenID) returns (ss: seq<State>, es: seq<Event>)
    requires Touches(s, e, root)
    ensures EndsTouching(s, ss, es, root)
  {
    ss, es := [s, Step(s, e).value], [e];
    assert Follows(ss, es, 0);
  }

  lemma StepFirst(s: State, e: Event, ss: seq<State>, es: seq<Event>, root: TokenID)
      returns (ss': seq<State>, es': seq<Event>)
    requires Step(s, e).Some? && EndsTouching(Step(s, e).value, ss, es, root)
    ensures EndsTouching(s, ss', es', root)
  {
    ss', es' := [s] + ss, [e] + es;
    forall i | 0 <= i < |es'| ensures Follows(ss', es', i) {
      if i > 0 { assert Follows(ss, es, i - 1); }
    }
  }

  function As(n: nat): (id: TokenID)
    ensures |id| == n
  {
    if n == 0 then "" else As(n - 1) + "a"
  }

  /** There is always an identifier that was never drawn. */
  lemma {:induction false} LongerThanAll(used: set<TokenID>) returns (n: nat)
    ensures forall id :: id in used ==> |id| < n
  {
    n := 0;
    if used != {} {
      var id :| id in used;
      var m := LongerThanAll(used - {id});
      n := if m > |id| then m else |id| + 1;
      assert forall x :: x in used ==> x == id || x in used - {id};
    }
  }

  lemma MintFrom(s: State, h: HandlerID, root: TokenID) returns (ss: seq<State>, es: seq<Event>)
    requires h in s.procs && s.procs[h].RefreshTimed? && Owns(s, AtHandler(h), root)
    ensures EndsTouching(s, ss, es, root)
  {
    var n := LongerThanAll(s.ledger.Keys);
    ss, es := TouchNow(s, RefreshMint(h, As(n)), root);
  }

  lemma TakeFrom(s: State, id: TokenID, root: TokenID) returns (ss: seq<State>, es: seq<Event>)
    requires Usable(s, AtRedis(id)) && Owns(s, AtRedis(id), root)
    ensures EndsTouching(s, ss, es, root)
  {
    if h :| h in s.procs && s.procs[h] == RefreshVerified(id) {
      ss, es := TouchNow(s, RefreshGetDel(h, Answered), root);
    } else if h :| h in s.procs && s.procs[h] == LogoutVerified(id) {
      ss, es := TouchNow(s, LogoutGetDel(h, Answered), root);
    } else {
      var h := SomeoneNew(s.procs.Keys);
      assert h !in s.procs;
      ss, es := TouchNow(Step(s, RefreshStart(h, id)).value, RefreshGetDel(h, Answered), root);
      ss, es := StepFirst(s, RefreshStart(h, id), ss, es, root);
    }
  }

  function StoreOf(h: HandlerID, pc: Pc): Event {
    if pc.LoginMinted? then LoginStore(h, Answered) else RefreshStore(h, Answered)
  }

  /** Once stored, a presentable token is a usable record. */
  lemma StoredIsUsable(s: State, h: HandlerID)
    requires PcsOk(s) && h in s.procs && AboutToStore(s.procs[h]).Some?
    requires Presentable(s, AboutToStore(s.procs[h]).value)
    ensures Step(s, StoreOf(h, s.procs[h])).Some?
    ensures var s', id := Step(s, StoreOf(h, s.procs[h])).value, AboutToStore(s.procs[h]).value;
      Usable(s', AtRedis(id)) && s'.ledger == s.ledger
  {
    assert PcOk(s, s.procs[h]);
    var id := AboutToStore(s.procs[h]).value;
    var s' := Step(s, StoreOf(h, s.procs[h])).value;
    if Verified(s, id) {
      var k :| k in s.procs && (s.procs[k] == RefreshVerified(id) || s.procs[k] == LogoutVerified(id));
      assert k in s'.procs && s'.procs[k] == s.procs[k];
    }
  }

  lemma StoreAndTake(s: State, h: HandlerID, root: TokenID) returns (ss: seq<State>, es: seq<Event>)
    requires PcsOk(s) && Owns(s, AtHandler(h), root)
    requires AboutToStore(s.procs[h]).Some? && Presentable(s, AboutToStore(s.procs[h]).value)
    ensures EndsTouching(s, ss, es, root)
  {
    StoredIsUsable(s, h);
    var e := StoreOf(h, s.procs[h]);
    var s' := Step(s, e).value;
    ss, es := TakeFrom(s', AboutToStore(s.procs[h]).value, root);
    ss, es := StepFirst(s, e, ss, es, root);
  }

  lemma UseOwner(s: State, c: Custodian, root: TokenID) returns (ss: seq<State>, es: seq<Event>)
    requires PcsOk(s) && Owns(s, c, root) && Usable(s, c)
    ensures EndsTouching(s, ss, es, root)
  {
    match c
    case AtRedis(id) =>
      ss, es := TakeFrom(s, id, root);
    case AtHandler(h) =>
      if s.procs[h].RefreshTimed? {
        ss, es := MintFrom(s, h, root);
      } else if s.procs[h].RefreshClaimed? {
        ss, es := MintFrom(Step(s, RefreshUntil(h)).value, h, root);
        ss, es := StepFirst(s, RefreshUntil(h), ss, es, root);
      } else {
        ss, es := StoreAndTake(s, h, root);
      }
  }

  /** A session is over exactly when it has no usable owner. */
  lemma EndedIff(s: State, root: TokenID)
    requires Inv(s) && root in s.ledger
    ensures Ended(s, root) <==> Spent(s, root)
  {
    if Spent(s, root) {
      forall ss, es | IsRun(ss, es) && ss[0] == s ensures !TouchedIn(ss, es, root) {
        forall i | 0 <= i < |es| ensures !Touches(ss[i], es[i], root) {
          SpentForever(ss, es, root, i);
          assert Follows(ss, es, i);
          SpentIsInert(ss[i], es[i], root);
        }
      }
    } else {
      var c :| Owns(s, c, root) && Usable(s, c);
      var ss, es := UseOwner(s, c, root);
      assert TouchedIn(ss, es, root);
    }
  }

  // ---------------------------------------------------------------- logout

  /**
   Exactly when a logout ends the session it was sent for: its GETDEL took the presented record,
   or, this handler apart, the session had no usable owner left anyway.
   */
  lemma LogoutEndsSessionIff(s: State, e: Event)
    requires Inv(s) && e.LogoutGetDel? && Step(s, e).Some? && s.procs[e.h].id in s.ledger
    ensures Ended(Step(s, e).value, LogoutTarget(s, e)) <==>
            Takes(s, e).Some? || Spent(Finish(s, e.h), LogoutTarget(s, e))
  {
    var s', root := Step(s, e).value, LogoutTarget(s, e);
    StepInv(s, e);
    assert TokenOk(s, s.procs[e.h].id);
    EndedIff(s', root);
    if Takes(s, e).Some? { LogoutLeavesNoOwnerIff(s, e); }
  }

  /** One token, a Refresh that has claimed it and a Logout that has verified it. */
  lemma RaceStarts() returns (ss: seq<State>, es: seq<Event>)
    ensures FromStart(ss, es) && ss[|es|].now == 0 && ss[|es|].redis == map[]
    ensures ss[|es|].procs == map[1 := RefreshClaimed("a"), 2 := LogoutVerified("a")]
    ensures ss[|es|].ledger == map["a" := Token("u", REFRESH_TTL, 0, "a", [])]
  {
    ss, es := OneLogin();
    ss, es := Extend(ss, es, RefreshStart(1, "a"));
    ss, es := Extend(ss, es, LogoutStart(2, "a"));
    ss, es := Extend(ss, es, RefreshGetDel(1, Answered));
  }

  /** The logout's answered GETDEL finds nothing, and the token rotated meanwhile is redeemed. */
  lemma LogoutCanLose() returns (ss: seq<State>, es: seq<Event>, i: nat)
    ensures FromStart(ss, es) && i < |es| - 1 && es[i].LogoutGetDel? && es[i].reply.Answered?
    ensures Step(ss[i], es[i]).Some? && ss[i].procs[es[i].h].id in ss[i].ledger && Takes(ss[i], es[i]).None?
    ensures Touches(ss[|es| - 1], es[|es| - 1], LogoutTarget(ss[i], es[i]))
  {
    ss, es := RaceStarts();
    i := |es|;
    ss, es := Extend(ss, es, LogoutGetDel(2, Answered));
    ss, es := Extend(ss, es, RefreshUntil(1));
    ss, es := Extend(ss, es, RefreshMint(1, "b"));
    ss, es := Extend(ss, es, RefreshStore(1, Answered));
    ss, es := Extend(ss, es, RefreshStart(3, "b"));
    ss, es := Extend(ss, es, RefreshGetDel(3, Answered));
  }
}
