/** Properties of whole runs of the session protocol, for every interleaving. */
module SessionTheorems {
  import opened Wrappers
  import opened Sums
  import opened SessionMachine
  import opened SessionInvariant

  // ---------------------------------------------------------------- custody

  /** In every reachable state each session has at most one owner, and all of Inv holds. */
  lemma {:induction false} OneCustodian(ss: seq<State>, es: seq<Event>, n: nat)
    requires FromStart(ss, es) && n <= |es|
    ensures Inv(ss[n])
  {
    if n == 0 {
      InitInv(ss[0].now);
    } else {
      OneCustodian(ss, es, n - 1);
      assert Follows(ss, es, n - 1);
      StepInv(ss[n - 1], es[n - 1]);
    }
  }

  lemma {:induction false} RunGrows(ss: seq<State>, es: seq<Event>, i: nat, j: nat)
    requires IsRun(ss, es) && i <= j <= |es|
    ensures Grows(ss[i], ss[j])
    decreases j
  {
    if i < j {
      RunGrows(ss, es, i, j - 1);
      assert Follows(ss, es, j - 1);
      StepGrows(ss[j - 1], es[j - 1]);
    }
  }

  // ---------------------------------------------------------------- single use

  lemma HistoryStep(s: State, e: Event, id: TokenID)
    requires Step(s, e).Some?
    ensures var s' := Step(s, e).value;
      && (id in s'.stored <==> id in s.stored || Stores(s, e) == Some(id))
      && (id in s'.taken <==> id in s.taken || Takes(s, e) == Some(id))
  {}

  /** The history sets are exactly what happened so far. */
  lemma {:induction false} HistoryIsWhatHappened(ss: seq<State>, es: seq<Event>, n: nat, id: TokenID)
    requires FromStart(ss, es) && n <= |es|
    ensures id in ss[n].stored <==> exists i :: 0 <= i < n && Stores(ss[i], es[i]) == Some(id)
    ensures id in ss[n].taken <==> exists i :: 0 <= i < n && Takes(ss[i], es[i]) == Some(id)
  {
    if n > 0 {
      HistoryIsWhatHappened(ss, es, n - 1, id);
      assert Follows(ss, es, n - 1);
      HistoryStep(ss[n - 1], es[n - 1], id);
    }
  }

  /** No token identifier is handed out by GetDel twice in any run. */
  lemma NeverRedeemedTwice(ss: seq<State>, es: seq<Event>, i: nat, j: nat)
    requires FromStart(ss, es) && i < j < |es|
    requires Takes(ss[i], es[i]).Some?
    ensures Takes(ss[j], es[j]) != Takes(ss[i], es[i])
  {
    var id := Takes(ss[i], es[i]).value;
    HistoryIsWhatHappened(ss, es, j, id);
    OneCustodian(ss, es, j);
  }

  /** Redis executed a GetDel on this token in this step. */
  predicate ExecutesGetDel(s: State, e: Event, id: TokenID) {
    && Step(s, e).Some?
    && (e.RefreshGetDel? || e.LogoutGetDel?) && !e.reply.NotExecuted?
    && s.procs[e.h].id == id
  }

  lemma KeptByStep(s: State, e: Event, id: TokenID)
    requires PcsOk(s) && HistoryOk(s) && Step(s, e).Some? && id in s.redis && Takes(s, e) != Some(id)
    ensures id in Step(s, e).value.redis && Step(s, e).value.redis[id] == s.redis[id]
  {
    StepRedis(s, e);
    StepSets(s, e);
    HistoryStep(s, e, id);
    if e.LoginStore? || e.RefreshStore? { assert AboutToStore(s.procs[e.h]).Some?; }
  }

  /** A record stays as written until some step takes it. */
  lemma {:induction false} RecordKept(ss: seq<State>, es: seq<Event>, id: TokenID, i: nat, j: nat)
    requires FromStart(ss, es) && i <= j <= |es| && id in ss[i].redis
    requires forall m :: i <= m < j ==> Takes(ss[m], es[m]) != Some(id)
    ensures id in ss[j].redis && ss[j].redis[id] == ss[i].redis[id]
    decreases j
  {
    if i < j {
      RecordKept(ss, es, id, i, j - 1);
      OneCustodian(ss, es, j - 1);
      assert Follows(ss, es, j - 1);
      assert Takes(ss[j - 1], es[j - 1]) != Some(id);
      KeptByStep(ss[j - 1], es[j - 1], id);
    }
  }

  /**
   Handlers racing for one stored token: if Redis executes any GetDel on it before its
   deadline, exactly one step of the whole run wins it, no later than that GetDel.
   */
  lemma ExactlyOneWinner(ss: seq<State>, es: seq<Event>, id: TokenID, i: nat, j: nat) returns (k: nat)
    requires FromStart(ss, es) && i <= j < |es|
    requires id in ss[i].redis && ExecutesGetDel(ss[j], es[j], id)
    requires ss[i].redis[id].deadline.Some? ==> ss[j].now <= ss[i].redis[id].deadline.value
    ensures i <= k <= j && Takes(ss[k], es[k]) == Some(id)
    ensures forall m :: 0 <= m < |es| && Takes(ss[m], es[m]) == Some(id) ==> m == k
  {
    if exists m :: i <= m < j && Takes(ss[m], es[m]) == Some(id) {
      k :| i <= k < j && Takes(ss[k], es[k]) == Some(id);
    } else {
      RecordKept(ss, es, id, i, j);
      k := j;
    }
    forall m | 0 <= m < |es| && Takes(ss[m], es[m]) == Some(id) ensures m == k {
      if m < k { NeverRedeemedTwice(ss, es, m, k); }
      if k < m { NeverRedeemedTwice(ss, es, k, m); }
    }
  }

  // ---------------------------------------------------------------- finality

  /** The session exists and nobody owns it any more. */
  ghost predicate Dead(s: State, root: TokenID) {
    root in s.ledger && forall c :: !Owns(s, c, root)
  }

  lemma DeadAfterMove(s: State, s': State, m: Move, root: TokenID)
    requires Moved(s, s', m) && AllMinted(s) && Dead(s, root)
    ensures Dead(s', root)
  {
    forall c ensures !Owns(s', c, root) {
      if Owns(s', c, root) { OwnerAfter(s, s', m, c, root); }
    }
  }

  lemma DeadStays(s: State, e: Event, root: TokenID)
    requires Inv(s) && Step(s, e).Some? && Dead(s, root)
    ensures Dead(Step(s, e).value, root)
  {
    StepMoves(s, e);
    InvAllMinted(s);
    DeadAfterMove(s, Step(s, e).value, MoveOf(s, e), root);
  }

  lemma DeadIsInert(s: State, e: Event, root: TokenID)
    requires RecordsOk(s) && Step(s, e).Some? && Dead(s, root)
    ensures MintsInto(s, e) != Some(root)
    ensures Takes(s, e).Some? ==> Takes(s, e).value in s.ledger && s.ledger[Takes(s, e).value].root != root
  {
    if e.RefreshMint? { assert !Owns(s, AtHandler(e.h), root); }
    if Takes(s, e).Some? {
      assert RecordOk(s, Takes(s, e).value);
      assert !Owns(s, AtRedis(Takes(s, e).value), root);
    }
  }

  lemma {:induction false} DeadForever(ss: seq<State>, es: seq<Event>, root: TokenID, i: nat, j: nat)
    requires FromStart(ss, es) && i <= j <= |es| && Dead(ss[i], root)
    ensures Dead(ss[j], root)
    decreases j
  {
    if i < j {
      DeadForever(ss, es, root, i, j - 1);
      OneCustodian(ss, es, j - 1);
      assert Follows(ss, es, j - 1);
      DeadStays(ss[j - 1], es[j - 1], root);
    }
  }

  /** The session of the token a running logout presents. */
  function LogoutTarget(s: State, e: Event): TokenID
    requires e.LogoutGetDel? && Step(s, e).Some? && s.procs[e.h].id in s.ledger
  {
    s.ledger[s.procs[e.h].id].root
  }

  /**
   After a logout's GetDel nobody owns the session exactly when that GetDel handed out the
   presented record or nobody owned the session before.
   */
  lemma LogoutLeavesNoOwnerIff(s: State, e: Event)
    requires Inv(s) && e.LogoutGetDel? && Step(s, e).Some? && s.procs[e.h].id in s.ledger
    ensures Dead(Step(s, e).value, LogoutTarget(s, e)) <==>
            Takes(s, e).Some? || Dead(s, LogoutTarget(s, e))
  {
    var s' := Step(s, e).value;
    var id := s.procs[e.h].id;
    var root := LogoutTarget(s, e);
    assert TokenOk(s, id);
    if Takes(s, e).Some? {
      forall c ensures !Owns(s', c, root) {
        assert Owns(s, AtRedis(id), root);
        assert Owns(s', c, root) ==> Owns(s, c, root) && c != AtRedis(id);
      }
    } else {
      forall c ensures Owns(s', c, root) <==> Owns(s, c, root) {}
    }
  }

  /** A logout whose GetDel returned the record ends the session for good. */
  lemma WinningLogoutIsFinal(ss: seq<State>, es: seq<Event>, i: nat, j: nat)
    requires FromStart(ss, es) && i < j < |es|
    requires es[i].LogoutGetDel? && Takes(ss[i], es[i]).Some? && ss[i].procs[es[i].h].id in ss[i].ledger
    ensures var root := LogoutTarget(ss[i], es[i]);
      && MintsInto(ss[j], es[j]) != Some(root)
      && (Takes(ss[j], es[j]).Some? ==>
            Takes(ss[j], es[j]).value in ss[j].ledger && ss[j].ledger[Takes(ss[j], es[j]).value].root != root)
  {
    OneCustodian(ss, es, i);
    assert Follows(ss, es, i);
    LogoutLeavesNoOwnerIff(ss[i], es[i]);
    DeadForever(ss, es, LogoutTarget(ss[i], es[i]), i + 1, j);
    OneCustodian(ss, es, j);
    assert Follows(ss, es, j);
    DeadIsInert(ss[j], es[j], LogoutTarget(ss[i], es[i]));
  }

  // ---------------------------------------------------------------- whose session it is

  /** Handler h started a login for `user` at step m and has not moved since, up to step n. */
  ghost predicate LoggingIn(es: seq<Event>, m: nat, n: nat, h: HandlerID, user: UserID)
    requires m < n <= |es|
  {
    es[m] == LoginStart(h, user) && forall i :: m < i < n ==> Mover(es[i]) != Some(h)
  }

  lemma StartsLogin(s: State, e: Event, h: HandlerID)
    requires Step(s, e).Some? && Mover(e) == Some(h)
    requires h in Step(s, e).value.procs && Step(s, e).value.procs[h].LoginVerified?
    ensures e == LoginStart(h, Step(s, e).value.procs[h].user)
  {}

  lemma {:induction false} VerifiedSince(ss: seq<State>, es: seq<Event>, n: nat, h: HandlerID) returns (m: nat)
    requires FromStart(ss, es) && n <= |es| && h in ss[n].procs && ss[n].procs[h].LoginVerified?
    ensures m < n && LoggingIn(es, m, n, h, ss[n].procs[h].user)
  {
    assert Follows(ss, es, n - 1);
    if Mover(es[n - 1]) == Some(h) {
      m := n - 1;
      StartsLogin(ss[n - 1], es[n - 1], h);
    } else {
      OthersStay(ss[n - 1], es[n - 1]);
      m := VerifiedSince(ss, es, n - 1, h);
    }
  }

  /** A login mints for the user it was started for. */
  lemma LoginMintsForItsUser(ss: seq<State>, es: seq<Event>, n: nat) returns (m: nat)
    requires FromStart(ss, es) && n < |es| && es[n].LoginMint?
    ensures m < n && es[m].LoginStart? && LoggingIn(es, m, n, es[n].h, es[m].user)
    ensures es[n].newId in ss[n + 1].ledger && ss[n + 1].ledger[es[n].newId].user == es[m].user
    ensures ss[n + 1].ledger[es[n].newId].root == es[n].newId
  {
    assert Follows(ss, es, n);
    m := VerifiedSince(ss, es, n, es[n].h);
  }

  lemma NotARoot(s: State, h: HandlerID, newId: TokenID)
    requires TokensOk(s) && Step(s, RefreshMint(h, newId)).Some?
    ensures Step(s, RefreshMint(h, newId)).value.ledger[newId].root != newId
  {
    assert TokenOk(s, s.procs[h].id);
  }

  lemma RootOfLogin(s: State, h: HandlerID, newId: TokenID)
    requires Step(s, LoginMint(h, newId)).Some?
    ensures Step(s, LoginMint(h, newId)).value.ledger[newId].root == newId
  {}

  /** Whether one token is a root after a step. */
  lemma RootStep(s: State, e: Event, id: TokenID)
    requires TokensOk(s) && Step(s, e).Some?
    ensures var s' := Step(s, e).value;
      id in s'.ledger && s'.ledger[id].root == id <==>
      (id in s.ledger && s.ledger[id].root == id) || (e.LoginMint? && e.newId == id)
  {
    StepLedger(s, e);
    if e.RefreshMint? { NotARoot(s, e.h, e.newId); }
    if e.LoginMint? { RootOfLogin(s, e.h, e.newId); }
  }

  /** Every session's first token was minted by some login of the run. */
  lemma {:induction false} RootMinted(ss: seq<State>, es: seq<Event>, n: nat, root: TokenID) returns (k: nat)
    requires FromStart(ss, es) && n <= |es| && root in ss[n].ledger && ss[n].ledger[root].root == root
    ensures k < n && es[k].LoginMint? && es[k].newId == root
    ensures root in ss[k + 1].ledger && ss[k + 1].ledger[root] == ss[n].ledger[root]
  {
    assert Follows(ss, es, n - 1);
    OneCustodian(ss, es, n - 1);
    StepLedger(ss[n - 1], es[n - 1]);
    RootStep(ss[n - 1], es[n - 1], root);
    if root in ss[n - 1].ledger {
      k := RootMinted(ss, es, n - 1, root);
    } else {
      k := n - 1;
    }
  }

  /**
   At every later point each token of a session and each stored record of it, after any number of
   rotations, belongs to the user who logged in; so does whatever user a GetDel hands out.
   */
  lemma SessionBelongsToLogin(ss: seq<State>, es: seq<Event>, n: nat, id: TokenID) returns (m: nat, k: nat)
    requires FromStart(ss, es) && n <= |es| && id in ss[n].ledger
    ensures m < k < n && es[m].LoginStart? && es[k] == LoginMint(es[m].h, ss[n].ledger[id].root)
    ensures LoggingIn(es, m, k, es[m].h, es[m].user)
    ensures ss[n].ledger[id].user == es[m].user
    ensures id in ss[n].redis ==> ss[n].redis[id].user == es[m].user
  {
    OneCustodian(ss, es, n);
    assert TokenOk(ss[n], id);
    if id in ss[n].redis { assert RecordOk(ss[n], id); }
    k := RootMinted(ss, es, n, ss[n].ledger[id].root);
    m := LoginMintsForItsUser(ss, es, k);
  }

  // ---------------------------------------------------------------- redeemability

  /** While a minted token is unexpired, Redis answers for it iff it was stored and never taken. */
  lemma RedeemableIffUnclaimed(ss: seq<State>, es: seq<Event>, n: nat, id: TokenID)
    requires FromStart(ss, es) && n <= |es| && id in ss[n].ledger && Unexpired(ss[n], id)
    ensures Live(ss[n], id) <==>
            (exists i :: 0 <= i < n && Stores(ss[i], es[i]) == Some(id)) &&
            (forall i :: 0 <= i < n ==> Takes(ss[i], es[i]) != Some(id))
  {
    OneCustodian(ss, es, n);
    HistoryIsWhatHappened(ss, es, n, id);
    if id in ss[n].redis { assert RecordOk(ss[n], id); }
  }

  /**
   The userID mismatch branches of Refresh and Logout are dead: whatever record a GetDel hands
   out holds its token's own user, and a Refresh that gets the answer always goes on.
   */
  lemma MismatchBranchIsDead(ss: seq<State>, es: seq<Event>, n: nat)
    requires FromStart(ss, es) && n < |es| && Takes(ss[n], es[n]).Some?
    ensures var id := Takes(ss[n], es[n]).value;
      && id in ss[n].redis && id in ss[n].ledger && ss[n].redis[id].user == ss[n].ledger[id].user
      && (es[n].RefreshGetDel? && es[n].reply.Answered? ==>
            es[n].h in ss[n + 1].procs && ss[n + 1].procs[es[n].h] == RefreshClaimed(id))
  {
    OneCustodian(ss, es, n);
    assert Follows(ss, es, n);
    assert RecordOk(ss[n], Takes(ss[n], es[n]).value);
  }

  // ---------------------------------------------------------------- lifetime

  /** How much lifetime the owner of a session can still pass on. */
  function Residual(s: State, c: Custodian): int
    requires CustodyToken(s, c).Some? && CustodyToken(s, c).value in s.ledger
  {
    if c.AtHandler? && s.procs[c.h].RefreshTimed? then s.procs[c.h].remaining
    else s.ledger[CustodyToken(s, c).value].expiry - s.now
  }

  lemma ResidualKept(s: State, s': State, m: Move, c: Custodian)
    requires Moved(s, s', m) && AllMinted(s) && !GivesUp(m, c)
    requires CustodyToken(s, c).Some? && CustodyToken(s', c).Some? && CustodyToken(s', c).value in s'.ledger
    requires !Receives(s, m, c, s'.ledger[CustodyToken(s', c).value].root)
    ensures Residual(s', c) <= Residual(s, c)
  {}

  lemma ResidualHandedOn(s: State, s': State, m: Move, root: TokenID, c: Custodian, c': Custodian)
    requires Moved(s, s', m) && AllMinted(s) && SingleCustody(s) && !m.NewSession?
    requires Owns(s, c, root) && Owns(s', c', root) && Receives(s, m, c', root)
    ensures Residual(s', c') <= Residual(s, c)
  {
    match m
    case ToRedis(h, id) => assert c == AtHandler(h);
    case ToHandler(h, id) => assert c == AtRedis(id);
    case Rotate(h, id, newId) => assert c == AtHandler(h);
  }

  lemma ResidualMove(s: State, s': State, m: Move, root: TokenID, c: Custodian, c': Custodian)
    requires Moved(s, s', m) && AllMinted(s) && TokensOk(s) && SingleCustody(s)
    requires Owns(s, c, root) && Owns(s', c', root)
    ensures Residual(s', c') <= Residual(s, c)
  {
    OwnerAfter(s, s', m, c', root);
    OwnedRootIsMinted(s, c, root);
    if Receives(s, m, c', root) { ResidualHandedOn(s, s', m, root, c, c'); }
    else { ResidualKept(s, s', m, c'); }
  }

  lemma ResidualStep(s: State, e: Event, root: TokenID, c: Custodian, c': Custodian)
    requires Inv(s) && Step(s, e).Some?
    requires Owns(s, c, root) && Owns(Step(s, e).value, c', root)
    ensures Residual(Step(s, e).value, c') <= Residual(s, c)
  {
    StepMoves(s, e);
    InvAllMinted(s);
    ResidualMove(s, Step(s, e).value, MoveOf(s, e), root, c, c');
  }

  lemma ResidualAtMostTTL(s: State, root: TokenID, c: Custodian)
    requires Inv(s) && Owns(s, c, root)
    ensures Residual(s, c) <= REFRESH_TTL
  {
    assert TokenOk(s, CustodyToken(s, c).value);
    if c.AtHandler? { assert PcOk(s, s.procs[c.h]); }
  }

  lemma OwnerBefore(s: State, e: Event, root: TokenID, c': Custodian) returns (c: Custodian)
    requires Inv(s) && Step(s, e).Some? && root in s.ledger && Owns(Step(s, e).value, c', root)
    ensures Owns(s, c, root) && Residual(Step(s, e).value, c') <= Residual(s, c)
  {
    if Dead(s, root) {
      DeadStays(s, e, root);
      assert false;
    }
    c :| Owns(s, c, root);
    ResidualStep(s, e, root, c, c');
  }

  lemma RootStays(ss: seq<State>, es: seq<Event>, root: TokenID, i: nat, j: nat, c: Custodian)
    requires FromStart(ss, es) && i <= j <= |es| && Owns(ss[i], c, root)
    ensures root in ss[j].ledger
  {
    OneCustodian(ss, es, i);
    OwnedRootIsMinted(ss[i], c, root);
    RunGrows(ss, es, i, j);
  }

  /** One step back along a run: the owner before, who held at least as much. */
  lemma ResidualBack(ss: seq<State>, es: seq<Event>, root: TokenID, j: nat, c': Custodian) returns (c: Custodian)
    requires FromStart(ss, es) && 0 < j <= |es| && root in ss[j - 1].ledger && Owns(ss[j], c', root)
    ensures Owns(ss[j - 1], c, root) && Residual(ss[j], c') <= Residual(ss[j - 1], c)
  {
    OneCustodian(ss, es, j - 1);
    assert Follows(ss, es, j - 1);
    c := OwnerBefore(ss[j - 1], es[j - 1], root, c');
  }

  /** The lifetime the owner of a session holds never increases from one point of a run to any later one. */
  lemma {:induction false} ResidualNeverGrows(
      ss: seq<State>, es: seq<Event>, root: TokenID, i: nat, j: nat, c: Custodian, c': Custodian)
    requires FromStart(ss, es) && i <= j <= |es|
    requires Owns(ss[i], c, root) && Owns(ss[j], c', root)
    ensures Residual(ss[j], c') <= Residual(ss[i], c)
    decreases j
  {
    if i == j {
      OneCustodian(ss, es, i);
      assert c == c';
    } else {
      RootStays(ss, es, root, i, j - 1, c);
      var d := ResidualBack(ss, es, root, j, c');
      ResidualNeverGrows(ss, es, root, i, j - 1, c, d);
    }
  }

  /** Rotation never lengthens a session: what is left never increases, and is at most 30 days. */
  lemma RotationNeverLengthens(
      ss: seq<State>, es: seq<Event>, root: TokenID, i: nat, j: nat, c: Custodian, c': Custodian)
    requires FromStart(ss, es) && i <= j <= |es|
    requires Owns(ss[i], c, root) && Owns(ss[j], c', root)
    ensures Residual(ss[j], c') <= Residual(ss[i], c) <= REFRESH_TTL
  {
    ResidualNeverGrows(ss, es, root, i, j, c, c');
    OneCustodian(ss, es, i);
    ResidualAtMostTTL(ss[i], root, c);
  }

  /** After |gaps| rotations a token expires at the login's expiry plus exactly the sum of the gaps. */
  lemma ExpiryIsLoginPlusGaps(ss: seq<State>, es: seq<Event>, n: nat, id: TokenID)
    requires FromStart(ss, es) && n <= |es| && id in ss[n].ledger
    ensures var t := ss[n].ledger[id];
      && t.root in ss[n].ledger
      && t.expiry == ss[n].ledger[t.root].mintedAt + REFRESH_TTL + Total(t.gaps)
      && (forall i :: 0 <= i < |t.gaps| ==> t.gaps[i] >= 0)
  {
    OneCustodian(ss, es, n);
    assert TokenOk(ss[n], id);
  }

  /**
   A token is accepted until exactly the lifetime after its login, and the gaps of its rotations, are
   over, and no longer.
   */
  lemma AcceptedWhile(ss: seq<State>, es: seq<Event>, n: nat, id: TokenID)
    requires FromStart(ss, es) && n <= |es| && id in ss[n].ledger
    ensures var t := ss[n].ledger[id];
      && t.root in ss[n].ledger
      && (Unexpired(ss[n], id) <==> ss[n].now - ss[n].ledger[t.root].mintedAt <= REFRESH_TTL + Total(t.gaps))
  {
    ExpiryIsLoginPlusGaps(ss, es, n, id);
  }

  lemma {:induction false} TimedSince(ss: seq<State>, es: seq<Event>, n: nat, h: HandlerID) returns (k: nat)
    requires FromStart(ss, es) && n <= |es| && h in ss[n].procs && ss[n].procs[h].RefreshTimed?
    ensures k < n && es[k] == RefreshUntil(h) && ss[k].now == ss[n].procs[h].readAt
    ensures h in ss[k].procs && ss[k].procs[h] == RefreshClaimed(ss[n].procs[h].id)
  {
    assert Follows(ss, es, n - 1);
    if es[n - 1] == RefreshUntil(h) { k := n - 1; }
    else { k := TimedSince(ss, es, n - 1, h); }
  }

  /** Each gap is the clock at the mint minus the clock at that handler's earlier time.Until. */
  lemma GapIsBetweenTwoReads(ss: seq<State>, es: seq<Event>, n: nat) returns (k: nat)
    requires FromStart(ss, es) && n < |es| && es[n].RefreshMint?
    ensures k < n && es[k] == RefreshUntil(es[n].h) && es[n].h in ss[k].procs && ss[k].procs[es[n].h].RefreshClaimed?
    ensures var parent := ss[k].procs[es[n].h].id;
      && parent in ss[n].ledger && es[n].newId in ss[n + 1].ledger
      && ss[n + 1].ledger[es[n].newId].gaps == ss[n].ledger[parent].gaps + [ss[n].now - ss[k].now]
      && ss[n + 1].ledger[es[n].newId].expiry == ss[n].ledger[parent].expiry + (ss[n].now - ss[k].now)
  {
    assert Follows(ss, es, n);
    k := TimedSince(ss, es, n, es[n].h);
    OneCustodian(ss, es, n);
    assert PcOk(ss[n], ss[n].procs[es[n].h]);
  }

  // ---------------------------------------------------------------- records that never expire

  /** A stored record lacks a deadline exactly when its token was minted with nothing left to live. */
  lemma RecordImmortalIff(ss: seq<State>, es: seq<Event>, n: nat, id: TokenID)
    requires FromStart(ss, es) && n <= |es| && id in ss[n].redis
    ensures id in ss[n].ledger
    ensures ss[n].redis[id].deadline.None? <==> ss[n].ledger[id].expiry <= ss[n].ledger[id].mintedAt
  {
    OneCustodian(ss, es, n);
    assert RecordOk(ss[n], id);
  }

  /** A record outlives its token by exactly the time that passed from the mint to the Set. */
  lemma DeadlineIsDelayed(ss: seq<State>, es: seq<Event>, n: nat, id: TokenID)
    requires FromStart(ss, es) && n < |es| && Stores(ss[n], es[n]) == Some(id)
    ensures id in ss[n].ledger && id in ss[n + 1].redis
    ensures var r, t := ss[n + 1].redis[id], ss[n].ledger[id];
      r.deadline == if t.expiry > t.mintedAt then Some(t.expiry + (ss[n].now - t.mintedAt)) else None
  {
    OneCustodian(ss, es, n);
    assert Follows(ss, es, n);
    assert PcOk(ss[n], ss[n].procs[es[n].h]);
    assert TokenOk(ss[n], id);
  }

  /** When it was minted already expired, its record is never taken and never expires, in any run. */
  lemma {:induction false} ExpiredRotationLeaks(ss: seq<State>, es: seq<Event>, id: TokenID, i: nat, j: nat)
    requires FromStart(ss, es) && i <= j <= |es| && id in ss[i].redis
    requires id in ss[i].ledger && ss[i].ledger[id].expiry < ss[i].ledger[id].mintedAt
    ensures Live(ss[j], id) && ss[j].redis[id] == ss[i].redis[id]
    decreases j
  {
    OneCustodian(ss, es, i);
    assert RecordOk(ss[i], id);
    if i < j {
      ExpiredRotationLeaks(ss, es, id, i, j - 1);
      OneCustodian(ss, es, j - 1);
      RunGrows(ss, es, i, j - 1);
      assert Follows(ss, es, j - 1);
      var s, e := ss[j - 1], es[j - 1];
      if e.RefreshGetDel? || e.LogoutGetDel? { assert PcOk(s, s.procs[e.h]); }
      KeptByStep(s, e, id);
    }
  }

  lemma Extend(ss: seq<State>, es: seq<Event>, e: Event) returns (ss': seq<State>, es': seq<Event>)
    requires FromStart(ss, es) && Step(ss[|es|], e).Some?
    ensures FromStart(ss', es') && es' == es + [e] && ss' == ss + [Step(ss[|es|], e).value]
  {
    ss', es' := ss + [Step(ss[|es|], e).value], es + [e];
    forall i | 0 <= i < |es'| ensures Follows(ss', es', i) {
      if i < |es| { assert Follows(ss, es, i); }
    }
  }

  /** Waiting long enough and reading the clock leaves a claimed handler with nothing to pass on. */
  lemma TimeRunsOut(ss: seq<State>, es: seq<Event>, h: HandlerID) returns (ss': seq<State>, es': seq<Event>)
    requires FromStart(ss, es) && h in ss[|es|].procs && ss[|es|].procs[h].RefreshClaimed?
    ensures FromStart(ss', es') && es <= es' && ss'[|es'|].ledger == ss[|es|].ledger
    ensures h in ss'[|es'|].procs && ss'[|es'|].procs[h].RefreshTimed? && ss'[|es'|].procs[h].remaining < 0
  {
    OneCustodian(ss, es, |es|);
    var id := ss[|es|].procs[h].id;
    assert PcOk(ss[|es|], ss[|es|].procs[h]);
    var left := ss[|es|].ledger[id].expiry - ss[|es|].now;
    ss', es' := Extend(ss, es, Tick(if left < 0 then 0 else left + 1));
    ss', es' := Extend(ss', es', RefreshUntil(h));
  }

  /**
   Every run in which a Refresh has claimed its token can go on to leak a record: the token
   expires before that handler's time.Until, so the rotated token is stored without a deadline.
   */
  lemma ExpiredRotationHappens(ss: seq<State>, es: seq<Event>, h: HandlerID, newId: TokenID)
      returns (ss': seq<State>, es': seq<Event>)
    requires FromStart(ss, es)
    requires h in ss[|es|].procs && ss[|es|].procs[h].RefreshClaimed? && newId !in ss[|es|].ledger
    ensures FromStart(ss', es') && es <= es'
    ensures newId in ss'[|es'|].redis && ss'[|es'|].redis[newId].deadline.None?
    ensures newId in ss'[|es'|].ledger && ss'[|es'|].ledger[newId].expiry < ss'[|es'|].ledger[newId].mintedAt
  {
    ss', es' := TimeRunsOut(ss, es, h);
    OneCustodian(ss', es', |es'|);
    assert PcOk(ss'[|es'|], ss'[|es'|].procs[h]);
    ss', es' := Extend(ss', es', RefreshMint(h, newId));
    ss', es' := Extend(ss', es', RefreshStore(h, Answered));
  }

  /** A run with one finished login. */
  lemma OneLogin() returns (ss: seq<State>, es: seq<Event>)
    ensures FromStart(ss, es) && ss[|es|].now == 0 && ss[|es|].procs == map[]
    ensures ss[|es|].ledger == map["a" := Token("u", REFRESH_TTL, 0, "a", [])]
    ensures ss[|es|].redis == map["a" := Record("u", Some(REFRESH_TTL))]
  {
    ss, es := [Init(0)], [];
    ss, es := Extend(ss, es, LoginStart(0, "u"));
    ss, es := Extend(ss, es, LoginMint(0, "a"));
    ss, es := Extend(ss, es, LoginStore(0, Answered));
  }

  /** And some run does claim a token. */
  lemma ClaimHappens() returns (ss: seq<State>, es: seq<Event>)
    ensures FromStart(ss, es)
    ensures 1 in ss[|es|].procs && ss[|es|].procs[1] == RefreshClaimed("a")
    ensures ss[|es|].ledger == map["a" := Token("u", REFRESH_TTL, 0, "a", [])]
  {
    ss, es := OneLogin();
    ss, es := Extend(ss, es, RefreshStart(1, "a"));
    ss, es := Extend(ss, es, RefreshGetDel(1, Answered));
  }

  /** Whatever time passes between the two clock reads, some rotation takes that long. */
  lemma GapHappens(g: nat) returns (ss: seq<State>, es: seq<Event>)
    ensures FromStart(ss, es) && "b" in ss[|es|].ledger && ss[|es|].ledger["b"].gaps == [g]
    ensures "a" in ss[|es|].ledger && ss[|es|].ledger["b"].expiry == ss[|es|].ledger["a"].expiry + g
  {
    ss, es := ClaimHappens();
    ss, es := Extend(ss, es, RefreshUntil(1));
    ss, es := Extend(ss, es, Tick(g));
    ss, es := Extend(ss, es, RefreshMint(1, "b"));
  }

  // ---------------------------------------------------------------- counting

  function LoginsMinted(es: seq<Event>): nat {
    if es == [] then 0
    else LoginsMinted(es[..|es| - 1]) + if es[|es| - 1].LoginMint? then 1 else 0
  }

  function Roots(s: State): set<TokenID> {
    set id | id in s.ledger && s.ledger[id].root == id
  }

  function Custodians(s: State): set<Custodian> {
    (set id | id in s.redis :: AtRedis(id)) + (set h | h in s.procs && Holding(s.procs[h]).Some? :: AtHandler(h))
  }

  lemma RootsStep(s: State, e: Event)
    requires TokensOk(s) && Step(s, e).Some?
    ensures Roots(Step(s, e).value) == Roots(s) + if e.LoginMint? then {e.newId} else {}
    ensures e.LoginMint? ==> e.newId !in Roots(s)
  {
    var s' := Step(s, e).value;
    forall id
      ensures id in s'.ledger && s'.ledger[id].root == id <==>
              (id in s.ledger && s.ledger[id].root == id) || (e.LoginMint? && e.newId == id)
    {
      RootStep(s, e, id);
    }
    StepLedger(s, e);
  }

  lemma {:induction false} RootsAreLogins(ss: seq<State>, es: seq<Event>, n: nat)
    requires FromStart(ss, es) && n <= |es|
    ensures |Roots(ss[n])| == LoginsMinted(es[..n])
  {
    if n == 0 {
      assert Roots(ss[0]) == {};
    } else {
      RootsAreLogins(ss, es, n - 1);
      OneCustodian(ss, es, n - 1);
      assert Follows(ss, es, n - 1);
      assert es[..n][..n - 1] == es[..n - 1];
      RootsStep(ss[n - 1], es[n - 1]);
    }
  }

  lemma {:induction false} DistinctOwnersDistinctRoots(s: State, cs: set<Custodian>, roots: set<TokenID>)
    requires Inv(s)
    requires forall c :: c in cs ==> exists r :: r in roots && Owns(s, c, r)
    ensures |cs| <= |roots|
    decreases |cs|
  {
    if cs != {} {
      var c :| c in cs;
      var r :| r in roots && Owns(s, c, r);
      forall c' | c' in cs - {c} ensures exists r' :: r' in roots - {r} && Owns(s, c', r') {
        var r' :| r' in roots && Owns(s, c', r');
        assert r' != r;
      }
      DistinctOwnersDistinctRoots(s, cs - {c}, roots - {r});
    }
  }

  /** At every point of every run, sessions owned by Redis or by a handler never outnumber logins. */
  lemma SessionsNeverExceedLogins(ss: seq<State>, es: seq<Event>, n: nat)
    requires FromStart(ss, es) && n <= |es|
    ensures |Custodians(ss[n])| <= LoginsMinted(es[..n])
  {
    var s := ss[n];
    OneCustodian(ss, es, n);
    RootsAreLogins(ss, es, n);
    forall c | c in Custodians(s) ensures exists r :: r in Roots(s) && Owns(s, c, r) {
      if c.AtHandler? { assert PcOk(s, s.procs[c.h]); } else { assert RecordOk(s, c.id); }
      var r := s.ledger[CustodyToken(s, c).value].root;
      assert Owns(s, c, r);
      OwnedRootIsMinted(s, c, r);
      assert r in Roots(s);
    }
    DistinctOwnersDistinctRoots(s, Custodians(s), Roots(s));
  }
}
