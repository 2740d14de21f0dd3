/**
 The handlers themselves, in the form the source gives them: straight-line code with early
 returns over one shared store. Between any two of a handler's commands the other handlers
 may run any steps (the `others` scripts), so each call is one handler's view of an arbitrary
 interleaving. The contracts say exactly which machine steps the handler performed, in order,
 and exactly when it sends which response.
 */
module SessionHandlers {
  import opened Wrappers
  import opened Traces
  import opened SessionMachine
  import opened SessionInvariant
  import opened SessionTheorems

  datatype Response =
    | InvalidSession                       // 401
    | ServerError                          // 500
    | LoggedOut                            // 200
    | LoggedIn(id: TokenID)                // 201 with a refresh cookie
    | Refreshed(id: TokenID, ttl: int)     // 201 with a rotated cookie of this Max-Age

  /** What the surroundings do to one call: fates of its two Redis commands, and whether the other calls succeed. */
  datatype Faults = Faults(getDel: Reply, role: bool, access: bool, mint: bool, store: Reply)

  /** The token is one of this service and not expired. */
  predicate Acceptable(s: State, id: TokenID) {
    id in s.ledger && Unexpired(s, id)
  }

  /** Steps up to the claim, of a Refresh that starts in state s. */
  function ClaimSteps(s: State, me: HandlerID, id: TokenID, reply: Reply): seq<Event> {
    if id !in s.ledger then []
    else if !Unexpired(s, id) then [RefreshStart(me, id)]
    else [RefreshStart(me, id), RefreshGetDel(me, reply)]
  }

  function StoreSteps(me: HandlerID, newId: TokenID, f: Faults): seq<Event> {
    if !f.mint then [Abort(me)] else [RefreshMint(me, newId), RefreshStore(me, f.store)]
  }

  /** Steps after the claim. A failed role lookup, access token or mint gives the claimed session up. */
  function RotationSteps(me: HandlerID, newId: TokenID, f: Faults): seq<Event> {
    if !f.role || !f.access then [Abort(me)] else [RefreshUntil(me)] + StoreSteps(me, newId, f)
  }

  predicate Stored(f: Faults) {
    f.mint && f.store.Answered?
  }

  /** Everything a rotation needs works. */
  predicate Rotates(f: Faults) {
    f.role && f.access && Stored(f)
  }

  function LoginSteps(me: HandlerID, user: UserID, newId: TokenID, f: Faults): seq<Event> {
    if !f.access || !f.mint then [LoginStart(me, user), Abort(me)]
    else [LoginStart(me, user), LoginMint(me, newId), LoginStore(me, f.store)]
  }

  /** Some event of the script draws this identifier for a new token. */
  predicate Draws(script: seq<Event>, id: TokenID) {
    exists i :: 0 <= i < |script| && Minted(script[i]) == Some(id)
  }

  /** uuid.NewString: the identifier a handler draws is in no token yet, and nobody else draws it. */
  predicate Fresh(s: State, others: seq<seq<Event>>, id: TokenID) {
    id !in s.ledger && forall k :: 0 <= k < |others| ==> !Draws(others[k], id)
  }

  /** What the other handlers cannot change under handler `me`. */
  ghost predicate Kept(s: State, s': State, me: HandlerID) {
    && (me in s.procs <==> me in s'.procs)
    && (me in s.procs ==> s'.procs[me] == s.procs[me])
    && forall id :: id in s.ledger ==> id in s'.ledger && s'.ledger[id] == s.ledger[id]
  }

  lemma OtherStepKeeps(s: State, e: Event, me: HandlerID)
    requires Step(s, e).Some? && Mover(e) != Some(me)
    ensures Kept(s, Step(s, e).value, me)
  {}

  class Gateway {
    var st: State
    ghost var past: seq<State>
    ghost var events: seq<Event>

    ghost predicate Valid()
      reads this
    {
      FromStart(past, events) && past[|events|] == st
    }

    /** The run went on from this past and these events, and these are the steps of it that `me` performed. */
    ghost predicate Did(was: seq<State>, before: seq<Event>, me: HandlerID, own: seq<Event>)
      reads this
    {
      && was <= past && before <= events
      && Own(events, Mover, me) == Own(before, Mover, me) + own
    }

    constructor (now: int)
      ensures Valid() && st == Init(now) && events == []
    {
      st := Init(now);
      past, events := [Init(now)], [];
    }

    /** One atomic step of somebody. */
    method Do(e: Event)
      requires Valid() && Step(st, e).Some?
      modifies this
      ensures Valid() && Some(st) == Step(old(st), e)
      ensures events == old(events) + [e] && past == old(past) + [st]
    {
      ghost var ss, es := Extend(past, events, e);
      st := Step(st, e).value;
      past, events := ss, es;
    }

    /** The other handlers run this script; entries that are not possible, or that are ours, do nothing. */
    method Others(me: HandlerID, script: seq<Event>)
      requires Valid()
      modifies this
      ensures Valid() && Did(old(past), old(events), me, []) && Kept(old(st), st, me)
      ensures forall id :: id in st.ledger && id !in old(st).ledger ==> Draws(script, id)
    {
      for i := 0 to |script|
        invariant Valid() && Did(old(past), old(events), me, []) && Kept(old(st), st, me)
        invariant forall id :: id in st.ledger && id !in old(st).ledger ==> Draws(script, id)
      {
        if Mover(script[i]) != Some(me) && Step(st, script[i]).Some? {
          OwnSnoc(events, script[i], Mover, me);
          OtherStepKeeps(st, script[i], me);
          StepLedger(st, script[i]);
          Do(script[i]);
        }
      }
    }

    /** One of our own steps. */
    method Act(me: HandlerID, e: Event)
      requires Valid() && Step(st, e).Some? && Mover(e) == Some(me)
      modifies this
      ensures Valid() && Some(st) == Step(old(st), e) && Did(old(past), old(events), me, [e])
      ensures events == old(events) + [e] && past == old(past) + [st]
    {
      OwnSnoc(events, e, Mover, me);
      Do(e);
    }

    /** An error return: the handler stops where it is. */
    method Fail(me: HandlerID)
      requires Valid() && me in st.procs
      modifies this
      ensures Valid() && me !in st.procs && Did(old(past), old(events), me, [Abort(me)])
    {
      Act(me, Abort(me));
    }

    /** VerifyRefreshToken for a Refresh call: a token of this service that is not expired. */
    method Verify(me: HandlerID, id: TokenID) returns (ok: bool)
      requires Valid() && me !in st.procs
      modifies this
      ensures Valid() && (ok <==> Acceptable(old(st), id)) && st.ledger == old(st).ledger
      ensures ok ==> me in st.procs && st.procs[me] == RefreshVerified(id)
      ensures !ok ==> me !in st.procs
      ensures Did(old(past), old(events), me, if id in old(st).ledger then [RefreshStart(me, id)] else [])
    {
      if id !in st.ledger { return false; }
      ok := Unexpired(st, id);
      Act(me, RefreshStart(me, id));
    }

    /** GETDEL for a Refresh call: the stored user, when Redis has the key and its reply arrives. */
    method GetDel(me: HandlerID, reply: Reply) returns (user: Option<UserID>)
      requires Valid() && me in st.procs && st.procs[me].RefreshVerified?
      modifies this
      ensures Valid() && st.ledger == old(st).ledger
      ensures old(st).procs[me].id in st.ledger
      ensures user.Some? <==> reply.Answered? && Live(old(st), old(st).procs[me].id)
      ensures user.Some? ==> me in st.procs && st.procs[me] == RefreshClaimed(old(st).procs[me].id)
      ensures user.Some? ==> user.value == st.ledger[old(st).procs[me].id].user
      ensures user.None? ==> me !in st.procs
      ensures events == old(events) + [RefreshGetDel(me, reply)]
      ensures Did(old(past), old(events), me, [RefreshGetDel(me, reply)])
    {
      OneCustodian(past, events, |events|);
      var id := st.procs[me].id;
      assert PcOk(st, st.procs[me]);
      if id in st.redis { assert RecordOk(st, id); }
      user := if reply.Answered? && Live(st, id) then Some(st.redis[id].user) else None;
      Act(me, RefreshGetDel(me, reply));
    }

    /** time.Until(payload.ExpiredAt), which may already be negative. */
    method Until(me: HandlerID) returns (remaining: int)
      requires Valid() && me in st.procs && st.procs[me].RefreshClaimed? && st.procs[me].id in st.ledger
      modifies this
      ensures Valid() && st.ledger == old(st).ledger
      ensures remaining == st.ledger[old(st).procs[me].id].expiry - old(st).now
      ensures me in st.procs && st.procs[me] == RefreshTimed(old(st).procs[me].id, remaining, old(st).now)
      ensures events == old(events) + [RefreshUntil(me)] && Did(old(past), old(events), me, [RefreshUntil(me)])
    {
      remaining := st.ledger[st.procs[me].id].expiry - st.now;
      Act(me, RefreshUntil(me));
    }

    /** CreateRefreshToken for the rotated token. */
    method Mint(me: HandlerID, newId: TokenID)
      requires Valid() && me in st.procs && st.procs[me].RefreshTimed? && st.procs[me].id in st.ledger
      requires newId !in st.ledger
      modifies this
      ensures Valid() && old(st).procs[me].id in st.ledger
      ensures me in st.procs && st.procs[me] == RefreshMinted(old(st).procs[me].id, newId, old(st).procs[me].remaining)
      ensures newId in st.ledger && st.ledger[newId].user == old(st).ledger[old(st).procs[me].id].user
      ensures Did(old(past), old(events), me, [RefreshMint(me, newId)])
    {
      Act(me, RefreshMint(me, newId));
    }

    /** SET of the rotated token's record. */
    method Store(me: HandlerID, reply: Reply)
      requires Valid() && me in st.procs && st.procs[me].RefreshMinted? && st.procs[me].id in st.ledger
      modifies this
      ensures Valid() && me !in st.procs && Did(old(past), old(events), me, [RefreshStore(me, reply)])
      ensures st.ledger == old(st).ledger
    {
      Act(me, RefreshStore(me, reply));
    }

    /** Mint and store the rotated token: a rotated cookie goes out exactly when both succeed. */
    method MintAndStore(me: HandlerID, newId: TokenID, f: Faults, others: seq<seq<Event>>) returns (resp: Response)
      requires Valid() && me in st.procs && st.procs[me].RefreshTimed? && st.procs[me].id in st.ledger
      requires |others| == 2 && Fresh(st, others, newId)
      modifies this
      ensures Valid() && me !in st.procs && Did(old(past), old(events), me, StoreSteps(me, newId, f))
      ensures resp == if Stored(f) then Refreshed(newId, old(st).procs[me].remaining) else ServerError
      ensures f.mint ==> newId in st.ledger && st.ledger[newId].user == old(st).ledger[old(st).procs[me].id].user
    {
      var remaining := st.procs[me].remaining;
      if !f.mint {
        Fail(me);
        return ServerError;
      }
      Mint(me, newId);
      Others(me, others[0]);
      Store(me, f.store);
      if !f.store.Answered? { return ServerError; }
      Others(me, others[1]);
      resp := Refreshed(newId, remaining);
    }

    /** Everything after the claim: role lookup, access token, rotation. */
    method Rotate(me: HandlerID, newId: TokenID, f: Faults, others: seq<seq<Event>>) returns (resp: Response)
      requires Valid() && me in st.procs && st.procs[me].RefreshClaimed? && st.procs[me].id in st.ledger
      requires |others| == 3 && Fresh(st, others, newId)
      modifies this
      ensures Valid() && me !in st.procs && Did(old(past), old(events), me, RotationSteps(me, newId, f))
      ensures resp == if Rotates(f) then Refreshed(newId, old(st).ledger[old(st).procs[me].id].expiry - old(st).now)
                      else ServerError
      ensures f.role && f.access ==> old(events) + [RefreshUntil(me)] <= events
      ensures f.role && f.access && f.mint ==>
        newId in st.ledger && st.ledger[newId].user == old(st).ledger[old(st).procs[me].id].user
    {
      if !f.role || !f.access {
        Fail(me);
        return ServerError;
      }
      var remaining := Until(me);
      Others(me, others[0]);
      resp := MintAndStore(me, newId, f, others[1..]);
    }

    /**
     Everything up to the claim: on None the client gets 401. `at` is the position of the GETDEL,
     so past[at] is the state it met.
     */
    method Claim(me: HandlerID, id: TokenID, reply: Reply, others: seq<Event>)
        returns (user: Option<UserID>, ghost at: nat)
      requires Valid() && me !in st.procs
      modifies this
      ensures Valid() && Did(old(past), old(events), me, ClaimSteps(old(st), me, id, reply)) && at < |past|
      ensures Acceptable(old(st), id) ==> |old(events)| < at < |events| && events[at] == RefreshGetDel(me, reply)
      ensures user.Some? <==> Acceptable(old(st), id) && reply.Answered? && Live(past[at], id)
      ensures user.Some? ==> me in st.procs && st.procs[me] == RefreshClaimed(id)
      ensures user.Some? ==> id in st.ledger && user.value == st.ledger[id].user
      ensures user.None? ==> me !in st.procs
      ensures forall n :: n in st.ledger && n !in old(st).ledger ==> Draws(others, n)
      ensures forall n :: n in old(st).ledger ==> n in st.ledger && st.ledger[n] == old(st).ledger[n]
    {
      at := 0;
      var ok := Verify(me, id);
      if !ok { return None, at; }
      Others(me, others);
      at := |events|;
      user := GetDel(me, reply);
    }

    /** A claimed Refresh goes on: compare users, then rotate. past[read] is the state time.Until met. */
    method Renew(me: HandlerID, id: TokenID, user: UserID, newId: TokenID, f: Faults, others: seq<seq<Event>>)
        returns (resp: Response, ghost read: nat)
      requires Valid() && me in st.procs && st.procs[me] == RefreshClaimed(id)
      requires id in st.ledger && user == st.ledger[id].user && |others| == 4 && Fresh(st, others, newId)
      modifies this
      ensures Valid() && me !in st.procs && Did(old(past), old(events), me, RotationSteps(me, newId, f))
      ensures |old(events)| <= read < |past|
      ensures !Rotates(f) ==> resp == ServerError
      ensures resp.Refreshed? ==> newId in st.ledger && st.ledger[newId].user == user
      ensures Rotates(f) ==>
        && read < |events| && events[read] == RefreshUntil(me)
        && resp == Refreshed(newId, old(st).ledger[id].expiry - past[read].now)
    {
      if user != st.ledger[id].user {
        assert false;   // every stored value is its token's own user
      }
      Others(me, others[0]);
      read := |events|;
      resp := Rotate(me, newId, f, others[1..]);
    }

    /**
     The Refresh handler. It answers 401 exactly when the claim fails, 201 exactly when the claim
     and everything after it succeed, and 500 otherwise.
     */
    method Refresh(me: HandlerID, cookie: Option<TokenID>, newId: TokenID, f: Faults, others: seq<seq<Event>>)
        returns (resp: Response, ghost at: nat, ghost read: nat)
      requires Valid() && me !in st.procs && |others| == 5 && Fresh(st, others, newId)
      modifies this
      ensures Valid() && me !in st.procs && at < |past| && read < |past|
      ensures cookie.None? ==> resp == InvalidSession && Did(old(past), old(events), me, [])
      ensures cookie.Some? && Acceptable(old(st), cookie.value) ==>
        |old(events)| < at < |events| && events[at] == RefreshGetDel(me, f.getDel)
      ensures cookie.Some? ==>
        var id := cookie.value;
        var claimed := Acceptable(old(st), id) && f.getDel.Answered? && Live(past[at], id);
        && Did(old(past), old(events), me,
               ClaimSteps(old(st), me, id, f.getDel) + if claimed then RotationSteps(me, newId, f) else [])
        && (resp == InvalidSession <==> !claimed)
        && (resp == ServerError <==> claimed && !Rotates(f))
        && (claimed && Rotates(f) ==>
              && at < read < |events| && events[read] == RefreshUntil(me)
              && resp == Refreshed(newId, old(st).ledger[id].expiry - past[read].now)
              && newId in st.ledger && st.ledger[newId].user == old(st).ledger[id].user)
    {
      at, read := 0, 0;
      if cookie.None? { return InvalidSession, at, read; }
      var user;
      user, at := Claim(me, cookie.value, f.getDel, others[0]);
      if user.None? { return InvalidSession, at, read; }
      resp, read := Renew(me, cookie.value, user.value, newId, f, others[1..]);
    }

    method LoginBegin(me: HandlerID, user: UserID)
      requires Valid() && me !in st.procs
      modifies this
      ensures Valid() && me in st.procs && st.procs[me] == LoginVerified(user) && st.ledger == old(st).ledger
      ensures Did(old(past), old(events), me, [LoginStart(me, user)])
    {
      Act(me, LoginStart(me, user));
    }

    /** CreateRefreshToken at login. */
    method LoginCreate(me: HandlerID, newId: TokenID)
      requires Valid() && me in st.procs && st.procs[me].LoginVerified? && newId !in st.ledger
      modifies this
      ensures Valid() && me in st.procs && st.procs[me] == LoginMinted(newId)
      ensures newId in st.ledger && st.ledger[newId].user == old(st).procs[me].user
      ensures Did(old(past), old(events), me, [LoginMint(me, newId)])
    {
      Act(me, LoginMint(me, newId));
    }

    /** SET of the login's record. */
    method LoginSet(me: HandlerID, reply: Reply)
      requires Valid() && me in st.procs && st.procs[me].LoginMinted? && st.procs[me].id in st.ledger
      modifies this
      ensures Valid() && me !in st.procs && Did(old(past), old(events), me, [LoginStore(me, reply)])
      ensures st.ledger == old(st).ledger
    {
      Act(me, LoginStore(me, reply));
    }

    /** Mint, set the cookie header, then SET: a failed SET still sends the cookie. */
    method LoginIssue(me: HandlerID, newId: TokenID, reply: Reply, others: seq<seq<Event>>) returns (resp: Response)
      requires Valid() && me in st.procs && st.procs[me].LoginVerified? && newId !in st.ledger && |others| == 2
      modifies this
      ensures Valid() && me !in st.procs
      ensures Did(old(past), old(events), me, [LoginMint(me, newId), LoginStore(me, reply)])
      ensures resp == if reply.Answered? then LoggedIn(newId) else ServerError
      ensures newId in st.ledger && st.ledger[newId].user == old(st).procs[me].user
    {
      LoginCreate(me, newId);
      Others(me, others[0]);
      LoginSet(me, reply);
      if !reply.Answered? { return ServerError; }
      Others(me, others[1]);
      resp := LoggedIn(newId);
    }

    /**
     Login once the password is accepted. The cookie goes out exactly when both tokens could be
     created; the answer is 201 exactly when, besides, the SET was answered.
     */
    method Login(me: HandlerID, user: UserID, newId: TokenID, f: Faults, others: seq<seq<Event>>)
        returns (resp: Response, cookie: Option<TokenID>)
      requires Valid() && me !in st.procs && |others| == 3 && Fresh(st, others, newId)
      modifies this
      ensures Valid() && me !in st.procs && Did(old(past), old(events), me, LoginSteps(me, user, newId, f))
      ensures cookie == if f.access && f.mint then Some(newId) else None
      ensures cookie.Some? ==> newId in st.ledger && st.ledger[newId].user == user
      ensures resp == if f.access && f.mint && f.store.Answered? then LoggedIn(newId) else ServerError
    {
      LoginBegin(me, user);
      Others(me, others[0]);
      if !f.access || !f.mint {
        Fail(me);
        return ServerError, None;
      }
      cookie := Some(newId);
      resp := LoginIssue(me, newId, f.store, others[1..]);
    }

    /** VerifyRefreshToken for a Logout call. */
    method VerifyLogout(me: HandlerID, id: TokenID) returns (ok: bool)
      requires Valid() && me !in st.procs && id in st.ledger
      modifies this
      ensures Valid() && (ok <==> Unexpired(old(st), id))
      ensures ok ==> me in st.procs && st.procs[me] == LogoutVerified(id)
      ensures !ok ==> me !in st.procs
      ensures Did(old(past), old(events), me, [LogoutStart(me, id)])
    {
      ok := Unexpired(st, id);
      Act(me, LogoutStart(me, id));
    }

    method GetDelLogout(me: HandlerID, reply: Reply)
      requires Valid() && me in st.procs && st.procs[me].LogoutVerified?
      modifies this
      ensures Valid() && me !in st.procs && Did(old(past), old(events), me, [LogoutGetDel(me, reply)])
    {
      Act(me, LogoutGetDel(me, reply));
    }

    /** Logout answers 200 on every path and sends GETDEL exactly for an unexpired token of this service. */
    method Logout(me: HandlerID, cookie: Option<TokenID>, reply: Reply, others: seq<Event>) returns (resp: Response)
      requires Valid() && me !in st.procs
      modifies this
      ensures Valid() && me !in st.procs && resp == LoggedOut
      ensures cookie.None? || cookie.value !in old(st).ledger ==> Did(old(past), old(events), me, [])
      ensures cookie.Some? && cookie.value in old(st).ledger ==>
        Did(old(past), old(events), me, [LogoutStart(me, cookie.value)] +
                if Unexpired(old(st), cookie.value) then [LogoutGetDel(me, reply)] else [])
    {
      resp := LoggedOut;
      if cookie.None? || cookie.value !in st.ledger { return; }
      var ok := VerifyLogout(me, cookie.value);
      if !ok { return; }
      Others(me, others);
      GetDelLogout(me, reply);
    }
  }
}
