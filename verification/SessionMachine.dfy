/**
 The refresh-session protocol of internal/handlers/auth.go as a step machine.

 Any number of stateless replicas run Login, Refresh and Logout against one Redis.
 Every Redis command, every clock read and every mint is one atomic step, and steps
 of different handlers interleave freely. All nondeterminism (who moves, which new
 identifier is drawn, whether a Redis command is executed and whether its reply
 arrives, how far the clock moves) is carried by the event, so Step is a function.
 */
module SessionMachine {
  import opened Wrappers

  type TokenID = string
  type UserID = string
  type HandlerID = nat

  /** The refresh lifetime given at login: 30 * 24 hours, in nanoseconds. */
  const REFRESH_TTL: int := 30 * 24 * 3600 * 1_000_000_000

  /** What Redis stores under RefreshKey(id). A record without a deadline never expires. */
  datatype Record = Record(user: UserID, deadline: Option<int>)

  /**
   A minted refresh token. `user` and `expiry` are the sealed payload. The rest is history:
   `root` is the token the login minted, `gaps` holds, for each rotation since, the time
   between the two clock reads of that rotation.
   */
  datatype Token = Token(user: UserID, expiry: int, mintedAt: int, root: TokenID, gaps: seq<int>)

  /** Program counter of a running handler, with the locals that are live there. */
  datatype Pc =
    | LoginVerified(user: UserID)                                      // password accepted, counter reset
    | LoginMinted(id: TokenID)                                         // about to Set
    | RefreshVerified(id: TokenID)                                     // cookie decrypted and unexpired
    | RefreshClaimed(id: TokenID)                                      // GetDel returned a matching record
    | RefreshTimed(id: TokenID, remaining: int, readAt: int)           // time.Until taken
    | RefreshMinted(id: TokenID, child: TokenID, remaining: int)       // about to Set
    | LogoutVerified(id: TokenID)

  /** `stored` and `taken` are history: which records were ever written, which ever handed out by GetDel. */
  datatype State = State(
    now: int,
    redis: map<TokenID, Record>,
    ledger: map<TokenID, Token>,
    procs: map<HandlerID, Pc>,
    stored: set<TokenID>,
    taken: set<TokenID>)

  /** Fate of one Redis command: never executed, executed with the reply lost, or answered. */
  datatype Reply = NotExecuted | ReplyLost | Answered

  datatype Event =
    | Tick(d: nat)
    | LoginStart(h: HandlerID, user: UserID)
    | LoginMint(h: HandlerID, newId: TokenID)
    | LoginStore(h: HandlerID, reply: Reply)
    | RefreshStart(h: HandlerID, id: TokenID)
    | RefreshGetDel(h: HandlerID, reply: Reply)
    | RefreshUntil(h: HandlerID)
    | RefreshMint(h: HandlerID, newId: TokenID)
    | RefreshStore(h: HandlerID, reply: Reply)
    | LogoutStart(h: HandlerID, id: TokenID)
    | LogoutGetDel(h: HandlerID, reply: Reply)
    | Abort(h: HandlerID)      // an error return, a cancelled request or a crashed replica

  function Init(now: int): State {
    State(now, map[], map[], map[], {}, {})
  }

  /** Redis answers for a key until its deadline has passed. */
  predicate Live(s: State, id: TokenID) {
    id in s.redis && (s.redis[id].deadline.None? || s.now <= s.redis[id].deadline.value)
  }

  /** TokenMeta.Valid: rejected only strictly after ExpiredAt. */
  predicate Unexpired(s: State, id: TokenID)
    requires id in s.ledger
  {
    s.now <= s.ledger[id].expiry
  }

  function WithProc(s: State, h: HandlerID, pc: Pc): State {
    s.(procs := s.procs[h := pc])
  }

  function Finish(s: State, h: HandlerID): State {
    s.(procs := s.procs - {h})
  }

  /** SET key user EX ttl; the client sends no expiry at all for a ttl that is not positive. */
  function SetRecord(s: State, id: TokenID, user: UserID, ttl: int): State {
    var deadline := if ttl > 0 then Some(s.now + ttl) else None;
    s.(redis := s.redis[id := Record(user, deadline)], stored := s.stored + {id})
  }

  /** The removing half of GETDEL on a live key. */
  function TakeRecord(s: State, id: TokenID): State {
    s.(redis := s.redis - {id}, taken := s.taken + {id})
  }

  function MintToken(s: State, id: TokenID, user: UserID, duration: int, root: TokenID, gaps: seq<int>): State {
    s.(ledger := s.ledger[id := Token(user, s.now + duration, s.now, root, gaps)])
  }

  predicate At(s: State, h: HandlerID) {
    h in s.procs
  }

  /** One step, or None when the event is not possible in this state. */
  function Step(s: State, e: Event): Option<State> {
    match e
    case Tick(d) => Some(s.(now := s.now + d))
    case Abort(h) => if At(s, h) then Some(Finish(s, h)) else None

    case LoginStart(h, user) =>
      if At(s, h) then None else Some(WithProc(s, h, LoginVerified(user)))
    case LoginMint(h, newId) =>
      if !At(s, h) || !s.procs[h].LoginVerified? || newId in s.ledger then None else
      Some(WithProc(MintToken(s, newId, s.procs[h].user, REFRESH_TTL, newId, []), h, LoginMinted(newId)))
    case LoginStore(h, reply) =>
      if !At(s, h) || !s.procs[h].LoginMinted? || s.procs[h].id !in s.ledger then None else
      var id := s.procs[h].id;
      Some(Finish(if reply.NotExecuted? then s else SetRecord(s, id, s.ledger[id].user, REFRESH_TTL), h))

    case RefreshStart(h, id) =>
      if At(s, h) || id !in s.ledger then None else
      Some(if Unexpired(s, id) then WithProc(s, h, RefreshVerified(id)) else s)
    case RefreshGetDel(h, reply) =>
      if !At(s, h) || !s.procs[h].RefreshVerified? || s.procs[h].id !in s.ledger then None else
      var id := s.procs[h].id;
      if reply.NotExecuted? || !Live(s, id) then Some(Finish(s, h)) else
      var t := TakeRecord(s, id);
      if reply.ReplyLost? || s.redis[id].user != s.ledger[id].user then Some(Finish(t, h)) else
      Some(WithProc(t, h, RefreshClaimed(id)))
    case RefreshUntil(h) =>
      if !At(s, h) || !s.procs[h].RefreshClaimed? || s.procs[h].id !in s.ledger then None else
      var id := s.procs[h].id;
      Some(WithProc(s, h, RefreshTimed(id, s.ledger[id].expiry - s.now, s.now)))
    case RefreshMint(h, newId) =>
      if !At(s, h) || !s.procs[h].RefreshTimed? || s.procs[h].id !in s.ledger || newId in s.ledger then None else
      var RefreshTimed(id, remaining, readAt) := s.procs[h];
      var p := s.ledger[id];
      Some(WithProc(MintToken(s, newId, p.user, remaining, p.root, p.gaps + [s.now - readAt]),
                    h, RefreshMinted(id, newId, remaining)))
    case RefreshStore(h, reply) =>
      if !At(s, h) || !s.procs[h].RefreshMinted? || s.procs[h].id !in s.ledger then None else
      var RefreshMinted(id, child, remaining) := s.procs[h];
      Some(Finish(if reply.NotExecuted? then s else SetRecord(s, child, s.ledger[id].user, remaining), h))

    case LogoutStart(h, id) =>
      if At(s, h) || id !in s.ledger then None else
      Some(if Unexpired(s, id) then WithProc(s, h, LogoutVerified(id)) else s)
    case LogoutGetDel(h, reply) =>
      if !At(s, h) || !s.procs[h].LogoutVerified? then None else
      var id := s.procs[h].id;
      Some(Finish(if reply.NotExecuted? || !Live(s, id) then s else TakeRecord(s, id), h))
  }

  /** The token whose live record this step removes, if any. */
  function Takes(s: State, e: Event): Option<TokenID> {
    if Step(s, e).None? then None else
    match e
    case RefreshGetDel(h, reply) =>
      if !reply.NotExecuted? && Live(s, s.procs[h].id) then Some(s.procs[h].id) else None
    case LogoutGetDel(h, reply) =>
      if !reply.NotExecuted? && Live(s, s.procs[h].id) then Some(s.procs[h].id) else None
    case _ => None
  }

  /** The lineage this step mints a refresh token into, if any. */
  function MintsInto(s: State, e: Event): Option<TokenID> {
    if Step(s, e).None? then None else
    match e
    case LoginMint(_, newId) => Some(newId)
    case RefreshMint(h, _) => Some(s.ledger[s.procs[h].id].root)
    case _ => None
  }

  predicate Follows(ss: seq<State>, es: seq<Event>, i: nat)
    requires i < |es| < |ss|
  {
    Step(ss[i], es[i]) == Some(ss[i + 1])
  }

  /** ss is the sequence of states a run with events es goes through. */
  ghost predicate IsRun(ss: seq<State>, es: seq<Event>) {
    |ss| == |es| + 1 && forall i :: 0 <= i < |es| ==> Follows(ss, es, i)
  }

  ghost predicate FromStart(ss: seq<State>, es: seq<Event>) {
    IsRun(ss, es) && ss[0] == Init(ss[0].now)
  }
}
