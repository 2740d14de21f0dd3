/** What every reachable state of the session protocol satisfies. */
module SessionInvariant {
  import opened Wrappers
  import opened Sums
  import opened SessionMachine

  /** The token through which a handler currently owns a session, if it owns one. */
  function Holding(pc: Pc): Option<TokenID> {
    match pc
    case LoginMinted(id) => Some(id)
    case RefreshClaimed(id) => Some(id)
    case RefreshTimed(id, _, _) => Some(id)
    case RefreshMinted(_, child, _) => Some(child)
    case _ => None
  }

  /** The token a handler is about to write to Redis, if any. */
  function AboutToStore(pc: Pc): Option<TokenID> {
    match pc
    case LoginMinted(id) => Some(id)
    case RefreshMinted(_, child, _) => Some(child)
    case _ => None
  }

  /** A session is owned either by a Redis record or by a running handler. */
  datatype Custodian = AtRedis(id: TokenID) | AtHandler(h: HandlerID)

  function CustodyToken(s: State, c: Custodian): Option<TokenID> {
    match c
    case AtRedis(id) => if id in s.redis then Some(id) else None
    case AtHandler(h) => if h in s.procs then Holding(s.procs[h]) else None
  }

  /** Custodian c owns the session whose login minted `root`. */
  predicate Owns(s: State, c: Custodian, root: TokenID) {
    CustodyToken(s, c).Some? && CustodyToken(s, c).value in s.ledger && s.ledger[CustodyToken(s, c).value].root == root
  }

  ghost predicate SingleCustody(s: State) {
    forall root, c, c' :: Owns(s, c, root) && Owns(s, c', root) ==> c == c'
  }

  predicate TokenOk(s: State, id: TokenID)
    requires id in s.ledger
  {
    var t := s.ledger[id];
    && t.root in s.ledger
    && var r := s.ledger[t.root];
    && r.root == t.root && r.gaps == [] && r.expiry == r.mintedAt + REFRESH_TTL
    && t.user == r.user
    && t.mintedAt <= s.now
    && t.expiry - t.mintedAt <= REFRESH_TTL
    && t.expiry == r.expiry + Total(t.gaps)
    && (t.gaps == [] ==> id == t.root)
    && forall i :: 0 <= i < |t.gaps| ==> t.gaps[i] >= 0
  }

  ghost predicate TokensOk(s: State) {
    forall id :: id in s.ledger ==> TokenOk(s, id)
  }

  predicate RecordOk(s: State, id: TokenID)
    requires id in s.redis
  {
    && id in s.ledger
    && s.redis[id].user == s.ledger[id].user
    && (s.redis[id].deadline.None? <==> s.ledger[id].expiry <= s.ledger[id].mintedAt)
    && (s.redis[id].deadline.Some? ==> s.ledger[id].expiry <= s.redis[id].deadline.value)
  }

  ghost predicate RecordsOk(s: State) {
    forall id :: id in s.redis ==> RecordOk(s, id)
  }

  predicate PcOk(s: State, pc: Pc) {
    match pc
    case LoginVerified(_) => true
    case LoginMinted(id) => id in s.ledger && id == s.ledger[id].root
    case RefreshVerified(id) => id in s.ledger && s.ledger[id].mintedAt <= s.ledger[id].expiry
    case LogoutVerified(id) => id in s.ledger && s.ledger[id].mintedAt <= s.ledger[id].expiry
    case RefreshClaimed(id) => id in s.ledger && id in s.taken
    case RefreshTimed(id, remaining, readAt) =>
      && id in s.ledger && id in s.taken
      && readAt <= s.now && remaining == s.ledger[id].expiry - readAt
      && remaining <= REFRESH_TTL
    case RefreshMinted(id, child, remaining) =>
      && id in s.ledger && child in s.ledger
      && s.ledger[child].user == s.ledger[id].user
      && s.ledger[child].root == s.ledger[id].root
      && s.ledger[child].expiry - s.ledger[child].mintedAt == remaining
  }

  ghost predicate PcsOk(s: State) {
    forall h :: h in s.procs ==> PcOk(s, s.procs[h])
  }

  ghost predicate HistoryOk(s: State) {
    && s.taken <= s.stored <= s.ledger.Keys
    && s.redis.Keys == s.stored - s.taken
    && forall h :: h in s.procs && AboutToStore(s.procs[h]).Some? ==> AboutToStore(s.procs[h]).value !in s.stored
  }

  ghost predicate Inv(s: State) {
    TokensOk(s) && RecordsOk(s) && PcsOk(s) && HistoryOk(s) && SingleCustody(s)
  }

  lemma InitInv(now: int)
    ensures Inv(Init(now))
  {}

  // ---------------------------------------------------------------- how custody moves

  /** What a step does to custody. */
  datatype Move =
    | Keep
    | NewSession(h: HandlerID, id: TokenID)
    | ToRedis(h: HandlerID, id: TokenID)
    | ToHandler(h: HandlerID, id: TokenID)
    | Rotate(h: HandlerID, id: TokenID, newId: TokenID)

  function MoveOf(s: State, e: Event): Move
    requires Step(s, e).Some?
  {
    match e
    case LoginMint(h, newId) => NewSession(h, newId)
    case LoginStore(h, reply) => if reply.NotExecuted? then Keep else ToRedis(h, s.procs[h].id)
    case RefreshGetDel(h, reply) =>
      if h in Step(s, e).value.procs then ToHandler(h, s.procs[h].id) else Keep
    case RefreshMint(h, newId) => Rotate(h, s.procs[h].id, newId)
    case RefreshStore(h, reply) => if reply.NotExecuted? then Keep else ToRedis(h, s.procs[h].child)
    case _ => Keep
  }

  /** Handler h goes on owning what it owned: unchanged, or having just read its remaining lifetime. */
  predicate StillHolds(s: State, s': State, h: HandlerID)
    requires h in s'.procs
  {
    && h in s.procs
    && (s'.procs[h] == s.procs[h] ||
        (s.procs[h].RefreshClaimed? && s'.now == s.now && s.procs[h].id in s.ledger &&
         s'.procs[h] == RefreshTimed(s.procs[h].id, s.ledger[s.procs[h].id].expiry - s.now, s.now)))
  }

  ghost predicate Moved(s: State, s': State, m: Move) {
    && s.now <= s'.now
    && match m
       case Keep =>
         && s'.ledger == s.ledger
         && (forall id :: id in s'.redis ==> id in s.redis)
         && (forall h :: h in s'.procs && Holding(s'.procs[h]).Some? ==> StillHolds(s, s', h))
       case NewSession(h, id) =>
         && h in s.procs && id !in s.ledger && s'.now == s.now && s'.redis == s.redis
         && s'.procs == s.procs[h := LoginMinted(id)]
         && id in s'.ledger && s'.ledger[id].root == id && s'.ledger == s.ledger[id := s'.ledger[id]]
       case ToRedis(h, id) =>
         && h in s.procs && Holding(s.procs[h]) == Some(id) && AboutToStore(s.procs[h]) == Some(id)
         && s'.now == s.now && s'.ledger == s.ledger
         && s'.redis.Keys == s.redis.Keys + {id} && s'.procs == s.procs - {h}
       case ToHandler(h, id) =>
         && id in s.redis && h in s.procs && Holding(s.procs[h]).None?
         && s'.now == s.now && s'.ledger == s.ledger
         && s'.redis == s.redis - {id} && s'.procs == s.procs[h := RefreshClaimed(id)]
       case Rotate(h, id, newId) =>
         && h in s.procs && s.procs[h].RefreshTimed? && s.procs[h].id == id
         && id in s.ledger && newId !in s.ledger && s'.now == s.now && s'.redis == s.redis
         && s'.procs == s.procs[h := RefreshMinted(id, newId, s.procs[h].remaining)]
         && newId in s'.ledger && s'.ledger == s.ledger[newId := s'.ledger[newId]]
         && s'.ledger[newId].root == s.ledger[id].root
         && s'.ledger[newId].expiry == s.now + s.procs[h].remaining
  }

  lemma StepMoves(s: State, e: Event)
    requires Step(s, e).Some?
    ensures Moved(s, Step(s, e).value, MoveOf(s, e))
  {}

  /** The owner a move takes the session from and gives it to, and the session it moves. */
  predicate Receives(s: State, m: Move, c: Custodian, root: TokenID) {
    match m
    case Keep => false
    case NewSession(h, id) => c == AtHandler(h) && root == id
    case ToRedis(h, id) => c == AtRedis(id) && Owns(s, AtHandler(h), root)
    case ToHandler(h, id) => c == AtHandler(h) && Owns(s, AtRedis(id), root)
    case Rotate(h, _, _) => c == AtHandler(h) && Owns(s, AtHandler(h), root)
  }

  predicate GivesUp(m: Move, c: Custodian) {
    match m
    case Keep => false
    case NewSession(_, _) => false
    case ToRedis(h, _) => c == AtHandler(h)
    case ToHandler(_, id) => c == AtRedis(id)
    case Rotate(h, _, _) => c == AtHandler(h)
  }

  /** The stored and held tokens are all minted: what ownership needs to know of the rest of Inv. */
  ghost predicate AllMinted(s: State) {
    && (forall id :: id in s.redis ==> id in s.ledger)
    && (forall h :: h in s.procs && Holding(s.procs[h]).Some? ==> Holding(s.procs[h]).value in s.ledger)
  }

  lemma InvAllMinted(s: State)
    requires RecordsOk(s) && PcsOk(s)
    ensures AllMinted(s)
  {
    forall id | id in s.redis ensures id in s.ledger { assert RecordOk(s, id); }
    forall h | h in s.procs && Holding(s.procs[h]).Some? ensures Holding(s.procs[h]).value in s.ledger {
      assert PcOk(s, s.procs[h]);
    }
  }

  /** After a step, an owner is one that neither gave up nor received, or the one that received. */
  lemma OwnerAfter(s: State, s': State, m: Move, c: Custodian, root: TokenID)
    requires Moved(s, s', m) && AllMinted(s) && Owns(s', c, root)
    ensures (Owns(s, c, root) && !GivesUp(m, c)) || Receives(s, m, c, root)
  {}

  lemma OwnedRootIsMinted(s: State, c: Custodian, root: TokenID)
    requires TokensOk(s)
    ensures Owns(s, c, root) ==> root in s.ledger && s.ledger[root].root == root
  {
    if Owns(s, c, root) { assert TokenOk(s, CustodyToken(s, c).value); }
  }

  lemma CustodyKept(s: State, s': State, m: Move)
    requires Moved(s, s', m) && AllMinted(s) && TokensOk(s) && SingleCustody(s)
    ensures SingleCustody(s')
  {
    forall root, c, c' | Owns(s', c, root) && Owns(s', c', root) ensures c == c' {
      OwnerAfter(s, s', m, c, root);
      OwnerAfter(s, s', m, c', root);
      OwnedRootIsMinted(s, c, root);
      OwnedRootIsMinted(s, c', root);
    }
  }

  // ---------------------------------------------------------------- the rest of the invariant

  /** The token this step mints, if any. */
  function Minted(e: Event): Option<TokenID> {
    match e
    case LoginMint(_, newId) => Some(newId)
    case RefreshMint(_, newId) => Some(newId)
    case _ => None
  }

  lemma TokensStay(s: State, s': State, newId: Option<TokenID>)
    requires TokensOk(s) && s.now <= s'.now
    requires s'.ledger.Keys == s.ledger.Keys + (if newId.Some? then {newId.value} else {})
    requires newId.Some? ==> newId.value !in s.ledger && TokenOk(s', newId.value)
    requires forall id :: id in s.ledger ==> s'.ledger[id] == s.ledger[id]
    ensures TokensOk(s')
  {
    forall id | id in s'.ledger ensures TokenOk(s', id) {
      if id in s.ledger { assert TokenOk(s, id); }
    }
  }

  lemma RotatedToken(s: State, h: HandlerID, newId: TokenID)
    requires TokensOk(s) && h in s.procs && PcOk(s, s.procs[h]) && Step(s, RefreshMint(h, newId)).Some?
    ensures TokenOk(Step(s, RefreshMint(h, newId)).value, newId)
  {
    assert TokenOk(s, s.procs[h].id);
    SumSnoc(s.ledger[s.procs[h].id].gaps, s.now - s.procs[h].readAt, Same);
  }

  /** Only the two mints add a token, and no step changes one. */
  lemma StepLedger(s: State, e: Event)
    requires Step(s, e).Some?
    ensures var s' := Step(s, e).value;
      && s.now <= s'.now
      && s'.ledger.Keys == s.ledger.Keys + (if Minted(e).Some? then {Minted(e).value} else {})
      && (Minted(e).Some? ==> Minted(e).value !in s.ledger)
      && (forall id :: id in s.ledger ==> s'.ledger[id] == s.ledger[id])
  {}

  lemma LoginToken(s: State, h: HandlerID, newId: TokenID)
    requires Step(s, LoginMint(h, newId)).Some?
    ensures TokenOk(Step(s, LoginMint(h, newId)).value, newId)
  {}

  lemma StepTokens(s: State, e: Event)
    requires TokensOk(s) && PcsOk(s) && Step(s, e).Some?
    ensures TokensOk(Step(s, e).value)
  {
    StepLedger(s, e);
    if e.RefreshMint? { RotatedToken(s, e.h, e.newId); }
    if e.LoginMint? { LoginToken(s, e.h, e.newId); }
    TokensStay(s, Step(s, e).value, Minted(e));
  }

  lemma RecordsStay(s: State, s': State, written: Option<TokenID>)
    requires RecordsOk(s)
    requires forall id :: id in s'.redis && Some(id) != written ==> id in s.redis && s'.redis[id] == s.redis[id]
    requires written.Some? ==> written.value in s'.redis && RecordOk(s', written.value)
    requires forall id :: id in s.ledger ==> id in s'.ledger && s'.ledger[id] == s.ledger[id]
    ensures RecordsOk(s')
  {
    forall id | id in s'.redis ensures RecordOk(s', id) {
      if Some(id) != written { assert RecordOk(s, id); }
    }
  }

  /** The token whose record this step writes, if any. */
  function Stores(s: State, e: Event): Option<TokenID> {
    if Step(s, e).None? then None else
    match e
    case LoginStore(h, reply) => if reply.NotExecuted? then None else Some(s.procs[h].id)
    case RefreshStore(h, reply) => if reply.NotExecuted? then None else Some(s.procs[h].child)
    case _ => None
  }

  lemma StepRedis(s: State, e: Event)
    requires Step(s, e).Some?
    ensures var s' := Step(s, e).value;
      && (Stores(s, e).Some? ==> Stores(s, e).value in s'.redis)
      && forall id :: id in s'.redis && Some(id) != Stores(s, e) ==> id in s.redis && s'.redis[id] == s.redis[id]
  {}

  lemma StoredRecord(s: State, e: Event)
    requires TokensOk(s) && Step(s, e).Some? && Stores(s, e).Some? && e.h in s.procs && PcOk(s, s.procs[e.h])
    ensures Stores(s, e).value in Step(s, e).value.redis && RecordOk(Step(s, e).value, Stores(s, e).value)
  {
    assert TokenOk(s, Stores(s, e).value);
  }

  lemma StepRecords(s: State, e: Event)
    requires TokensOk(s) && RecordsOk(s) && PcsOk(s) && Step(s, e).Some?
    ensures RecordsOk(Step(s, e).value)
  {
    StepRedis(s, e);
    StepLedger(s, e);
    if Stores(s, e).Some? { StoredRecord(s, e); }
    RecordsStay(s, Step(s, e).value, Stores(s, e));
  }

  /** Minted tokens, taken marks and the clock only grow. */
  ghost predicate Grows(s: State, s': State) {
    && s.now <= s'.now && s.taken <= s'.taken
    && forall id :: id in s.ledger ==> id in s'.ledger && s'.ledger[id] == s.ledger[id]
  }

  lemma StepGrows(s: State, e: Event)
    requires Step(s, e).Some?
    ensures Grows(s, Step(s, e).value)
  {}

  /** Who moved, if anyone; everybody else's program counter stays put. */
  function Mover(e: Event): Option<HandlerID> {
    match e
    case Tick(_) => None
    case LoginStart(h, _) => Some(h) case LoginMint(h, _) => Some(h) case LoginStore(h, _) => Some(h)
    case RefreshStart(h, _) => Some(h) case RefreshGetDel(h, _) => Some(h) case RefreshUntil(h) => Some(h)
    case RefreshMint(h, _) => Some(h) case RefreshStore(h, _) => Some(h)
    case LogoutStart(h, _) => Some(h) case LogoutGetDel(h, _) => Some(h) case Abort(h) => Some(h)
  }

  lemma OthersStay(s: State, e: Event)
    requires Step(s, e).Some?
    ensures var s' := Step(s, e).value;
      forall h :: h in s'.procs && Some(h) != Mover(e) ==> h in s.procs && s'.procs[h] == s.procs[h]
  {}

  lemma PcKept(s: State, s': State, pc: Pc)
    requires PcOk(s, pc) && Grows(s, s')
    ensures PcOk(s', pc)
  {}

  lemma StartPc(s: State, e: Event)
    requires TokensOk(s) && Step(s, e).Some? && (e.LoginStart? || e.RefreshStart? || e.LogoutStart?)
    ensures e.h in Step(s, e).value.procs ==> PcOk(Step(s, e).value, Step(s, e).value.procs[e.h])
  {
    if !e.LoginStart? { assert TokenOk(s, e.id); }
  }

  lemma MoverPc(s: State, e: Event, h: HandlerID)
    requires TokensOk(s) && Step(s, e).Some? && Mover(e) == Some(h) && h in Step(s, e).value.procs
    requires h in s.procs && PcOk(s, s.procs[h])
    ensures PcOk(Step(s, e).value, Step(s, e).value.procs[h])
  {
    if e.RefreshUntil? { assert TokenOk(s, s.procs[h].id); }
  }

  lemma StepPcs(s: State, e: Event)
    requires TokensOk(s) && PcsOk(s) && Step(s, e).Some?
    ensures PcsOk(Step(s, e).value)
  {
    var s' := Step(s, e).value;
    StepGrows(s, e);
    OthersStay(s, e);
    forall h | h in s'.procs ensures PcOk(s', s'.procs[h]) {
      if Mover(e) != Some(h) { PcKept(s, s', s.procs[h]); }
      else if e.LoginStart? || e.RefreshStart? || e.LogoutStart? { StartPc(s, e); }
      else { MoverPc(s, e, h); }
    }
  }

  /** Nobody else is about to store the token this handler is about to store. */
  lemma StoresOnce(s: State, h: HandlerID, h': HandlerID)
    requires PcsOk(s) && SingleCustody(s) && h in s.procs && h' in s.procs
    requires AboutToStore(s.procs[h]).Some? && AboutToStore(s.procs[h]) == AboutToStore(s.procs[h'])
    ensures h == h'
  {
    assert PcOk(s, s.procs[h]) && PcOk(s, s.procs[h']);
    var root := s.ledger[AboutToStore(s.procs[h]).value].root;
    assert Owns(s, AtHandler(h), root) && Owns(s, AtHandler(h'), root);
  }

  /** The sets of written and taken records are what the step did to Redis. */
  lemma StepSets(s: State, e: Event)
    requires PcsOk(s) && s.taken <= s.stored <= s.ledger.Keys && s.redis.Keys == s.stored - s.taken
    requires forall h :: h in s.procs && AboutToStore(s.procs[h]).Some? ==> AboutToStore(s.procs[h]).value !in s.stored
    requires Step(s, e).Some?
    ensures var s' := Step(s, e).value; s'.taken <= s'.stored <= s'.ledger.Keys && s'.redis.Keys == s'.stored - s'.taken
    ensures var s' := Step(s, e).value;
      || s'.stored == s.stored
      || ((e.LoginStore? || e.RefreshStore?) && s'.stored == s.stored + {AboutToStore(s.procs[e.h]).value})
  {
    match e
    case LoginStore(h, _) => assert PcOk(s, s.procs[h]);
    case RefreshStore(h, _) => assert PcOk(s, s.procs[h]);
    case _ =>
  }

  lemma MoverStoresNew(s: State, e: Event, h: HandlerID)
    requires Step(s, e).Some? && Mover(e) == Some(h) && h in Step(s, e).value.procs
    ensures AboutToStore(Step(s, e).value.procs[h]).Some? ==> AboutToStore(Step(s, e).value.procs[h]).value !in s.ledger
    ensures AboutToStore(Step(s, e).value.procs[h]).Some? ==> e.LoginMint? || e.RefreshMint?
  {}

  lemma StepHistory(s: State, e: Event)
    requires PcsOk(s) && HistoryOk(s) && SingleCustody(s) && Step(s, e).Some?
    ensures HistoryOk(Step(s, e).value)
  {
    var s' := Step(s, e).value;
    StepSets(s, e);
    OthersStay(s, e);
    forall h | h in s'.procs && AboutToStore(s'.procs[h]).Some?
      ensures AboutToStore(s'.procs[h]).value !in s'.stored
    {
      if Mover(e) == Some(h) {
        MoverStoresNew(s, e, h);
      } else if s'.stored != s.stored && AboutToStore(s.procs[h]) == AboutToStore(s.procs[e.h]) {
        StoresOnce(s, h, e.h);
      }
    }
  }

  lemma StepInv(s: State, e: Event)
    requires Inv(s) && Step(s, e).Some?
    ensures Inv(Step(s, e).value)
  {
    StepMoves(s, e);
    InvAllMinted(s);
    CustodyKept(s, Step(s, e).value, MoveOf(s, e));
    StepTokens(s, e);
    StepRecords(s, e);
    StepPcs(s, e);
    StepHistory(s, e);
  }
}
