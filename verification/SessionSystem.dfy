/** The relay's session table and its sessions under every interleaving of logins,
    logouts, authentications, the janitor, expiry timers, viewer handlers and shutdown.
    The table's mutex is held across a prune, one entry a step; sessions change meanwhile. */
module SessionSystem {
  import opened Wrappers
  import opened RelayRoom
  import opened RelaySession

  /** A session is an identity, found in the table by the hash of its token. */
  type Sid = nat
  type Hash = nat
  type Hid = nat
  type Rid = nat
  type Sessions = map<Sid, SessionState<Rid>>

  datatype Purpose = Janitor | Create(cookie: Option<Hash>, hash: Hash, expiresAt: Time)

  datatype Handler =
    | Waiting(now: Time, purpose: Purpose)
    | Pruning(now: Time, todo: set<Hash>, expired: set<Sid>, purpose: Purpose)
    | Closing
    | Revoking(waiting: set<Sid>)
    | Authenticated(sid: Sid)
    | Finished
  {
    /** The sessions this handler took out of the table and has yet to revoke. */
    function Held(): set<Sid> {
      match this
      case Pruning(_, _, expired, _) => expired
      case Revoking(sids) => sids
      case _ => {}
    }
  }

  /** One viewer handler's reservation. */
  datatype Visit = Visit(sid: Sid, conn: Option<Conn>, present: bool)

  datatype Place = Listed(hash: Hash) | HeldBy(h: Hid)

  /** `place` and `collected` are history: where each session was last put, and the
      connections its revocation collected. */
  datatype State = State(
    maxSessions: nat,
    maxViewers: nat,
    ready: bool,
    table: map<Hash, Sid>,
    mu: Option<Hid>,
    sessions: Sessions,
    handlers: map<Hid, Handler>,
    visits: map<Rid, Visit>,
    place: map<Sid, Place>,
    collected: map<Sid, set<Conn>>)

  function Init(maxSessions: nat, maxViewers: nat): State {
    State(maxSessions, maxViewers, true, map[], None, map[], map[], map[], map[], map[])
  }

  datatype Step =
    | BeginCreate(h: Hid, now: Time, cookie: Option<Hash>, hash: Hash, expiresAt: Time)
    | BeginJanitor(h: Hid, now: Time)
    | Lock(h: Hid)
    | Prune(h: Hid, hash: Hash)
    | Unlock(h: Hid, sid: Sid)
    | Delete(h: Hid, hash: Hash)
    | Authenticate(h: Hid, hash: Hash, now: Time)
    | BeginClose(h: Hid)
    | CloseTable(h: Hid)
    | Revoke(h: Hid, sid: Sid)
    | ExpireSession(sid: Sid)
    | Reserve(h: Hid, r: Rid, now: Time)
    | Attach(r: Rid, conn: Conn, now: Time)
    | Release(r: Rid)

  function Do(s: State, step: Step): State {
    match step
    case BeginCreate(h, now, cookie, hash, expiresAt) => DoBeginCreate(s, h, now, cookie, hash, expiresAt)
    case BeginJanitor(h, now) => DoBegin(s, h, Waiting(now, Janitor))
    case Lock(h) => DoLock(s, h)
    case Prune(h, hash) => DoPrune(s, h, hash)
    case Unlock(h, sid) => DoUnlock(s, h, sid)
    case Delete(h, hash) => DoDelete(s, h, hash)
    case Authenticate(h, hash, now) => DoAuthenticate(s, h, hash, now)
    case BeginClose(h) => DoBeginClose(s, h)
    case CloseTable(h) => DoCloseTable(s, h)
    case Revoke(h, sid) => DoRevoke(s, h, sid)
    case ExpireSession(sid) => DoExpireSession(s, sid)
    case Reserve(h, r, now) => DoReserve(s, h, r, now)
    case Attach(r, conn, now) => DoAttach(s, r, conn, now)
    case Release(r) => DoRelease(s, r)
  }

  function Run(s: State, steps: seq<Step>): State
    decreases |steps|
  {
    if steps == [] then s else Run(Do(s, steps[0]), steps[1..])
  }

  function DoBegin(s: State, h: Hid, handler: Handler): State {
    if h in s.handlers then s else s.(handlers := s.handlers[h := handler])
  }

  /** A login is turned away once the server is not ready; one under way goes on. */
  function DoBeginCreate(s: State, h: Hid, now: Time, cookie: Option<Hash>, hash: Hash, expiresAt: Time): State {
    if !s.ready then s else DoBegin(s, h, Waiting(now, Create(cookie, hash, expiresAt)))
  }

  function DoBeginClose(s: State, h: Hid): State {
    if h in s.handlers || !s.ready then s
    else s.(ready := false, handlers := s.handlers[h := Closing])
  }

  function DoLock(s: State, h: Hid): State {
    if h !in s.handlers || !s.handlers[h].Waiting? || s.mu.Some? then s
    else
      var w := s.handlers[h];
      s.(mu := Some(h), handlers := s.handlers[h := Pruning(w.now, s.table.Keys, {}, w.purpose)])
  }

  /** The loop body of a prune. */
  function DoPrune(s: State, h: Hid, hash: Hash): State {
    if h !in s.handlers || !s.handlers[h].Pruning? || hash !in s.handlers[h].todo then s
    else
      var w := s.handlers[h];
      var s' := s.(handlers := s.handlers[h := w.(todo := w.todo - {hash})]);
      if hash !in s.table then s'
      else if s.table[hash] in s.sessions && s.sessions[s.table[hash]].Valid(w.now) then s'
      else
        s.(table := s.table - {hash},
           place := s.place[s.table[hash] := HeldBy(h)],
           handlers := s.handlers[h := w.(todo := w.todo - {hash}, expired := w.expired + {s.table[hash]})])
  }

  /** Takes what `hash` names out of the table, into the hands of `h`. */
  function TakeOut(s: State, h: Hid, hash: Hash): (State, set<Sid>) {
    if hash !in s.table then (s, {})
    else (s.(table := s.table - {hash}, place := s.place[s.table[hash] := HeldBy(h)]), {s.table[hash]})
  }

  function TakeCookie(s: State, h: Hid, cookie: Option<Hash>): (State, set<Sid>) {
    if cookie.None? then (s, {}) else TakeOut(s, h, cookie.value)
  }

  /** The rest of the locked region after the prune: the janitor unlocks; a login first
      takes out the session it replaces, then inserts its own if there is room. */
  function DoUnlock(s: State, h: Hid, sid: Sid): State {
    if h !in s.handlers || !s.handlers[h].Pruning? || s.handlers[h].todo != {} then s
    else
      var w := s.handlers[h];
      if w.purpose.Janitor? then
        s.(mu := None, handlers := s.handlers[h := Revoking(w.expired)])
      else if sid in s.sessions then s
      else
        var u := BeforeInsert(s, h);
        if |u.table| >= u.maxSessions then u
        else Insert(u, w.purpose.hash, sid, w.purpose.expiresAt)
  }

  /** A login after its prune, the cookie's session taken out, unlocked. */
  function BeforeInsert(s: State, h: Hid): State
    requires h in s.handlers && s.handlers[h].Pruning? && s.handlers[h].purpose.Create?
  {
    var w := s.handlers[h];
    var t := TakeCookie(s, h, w.purpose.cookie);
    t.0.(mu := None, handlers := t.0.handlers[h := Revoking(w.expired + t.1)])
  }

  function Insert(s: State, hash: Hash, sid: Sid, expiresAt: Time): State {
    s.(table := s.table[hash := sid],
       sessions := s.sessions[sid := SessionState(expiresAt, false, {}, map[], 0)],
       place := s.place[sid := Listed(hash)],
       collected := s.collected[sid := {}])
  }

  function DoDelete(s: State, h: Hid, hash: Hash): State {
    if h in s.handlers || s.mu.Some? then s
    else
      var t := TakeOut(s, h, hash);
      t.0.(handlers := t.0.handlers[h := Revoking(t.1)])
  }

  function DoAuthenticate(s: State, h: Hid, hash: Hash, now: Time): State {
    if h in s.handlers || s.mu.Some? then s
    else if hash !in s.table then s.(handlers := s.handlers[h := Finished])
    else if s.table[hash] in s.sessions && s.sessions[s.table[hash]].Valid(now) then
      s.(handlers := s.handlers[h := Authenticated(s.table[hash])])
    else
      var t := TakeOut(s, h, hash);
      t.0.(handlers := t.0.handlers[h := Revoking(t.1)])
  }

  function DoCloseTable(s: State, h: Hid): State {
    if h !in s.handlers || !s.handlers[h].Closing? || s.mu.Some? then s
    else
      s.(table := map[],
         place := map sid | sid in s.place :: if sid in s.table.Values then HeldBy(h) else s.place[sid],
         handlers := s.handlers[h := Revoking(s.table.Values)])
  }

  function Revoked(s: State, sid: Sid): State
    requires sid in s.sessions
  {
    var before := if sid in s.collected then s.collected[sid] else {};
    s.(sessions := s.sessions[sid := s.sessions[sid].Revoke()],
       collected := s.collected[sid := before + s.sessions[sid].Collected()])
  }

  /** A writer's timer finds the session expired. */
  function DoExpireSession(s: State, sid: Sid): State {
    if sid in s.sessions then Revoked(s, sid) else s
  }

  function DoRevoke(s: State, h: Hid, sid: Sid): State {
    if h !in s.handlers || !s.handlers[h].Revoking? || sid !in s.handlers[h].waiting || sid !in s.sessions then s
    else Revoked(s, sid).(handlers := s.handlers[h := Revoking(s.handlers[h].waiting - {sid})])
  }

  function DoReserve(s: State, h: Hid, r: Rid, now: Time): State {
    if h !in s.handlers || !s.handlers[h].Authenticated? || r in s.visits then s
    else
      var sid := s.handlers[h].sid;
      var t := s.(handlers := s.handlers[h := Finished]);
      if sid !in s.sessions || !s.sessions[sid].CanReserve(now, s.maxViewers) then t
      else t.(sessions := s.sessions[sid := s.sessions[sid].Reserve(r)],
              visits := s.visits[r := Visit(sid, None, true)])
  }

  function DoAttach(s: State, r: Rid, conn: Conn, now: Time): State {
    if r !in s.visits || !s.visits[r].present || s.visits[r].sid !in s.sessions then s
    else
      var sid := s.visits[r].sid;
      if !s.sessions[sid].CanAttach(r, now) then s
      else s.(sessions := s.sessions[sid := s.sessions[sid].Attach(r, conn)],
              visits := s.visits[r := s.visits[r].(conn := Some(conn))])
  }

  function DoRelease(s: State, r: Rid): State {
    if r !in s.visits || !s.visits[r].present || s.visits[r].sid !in s.sessions then s
    else
      var sid := s.visits[r].sid;
      s.(sessions := s.sessions[sid := s.sessions[sid].Release(r)],
         visits := s.visits[r := s.visits[r].(present := false)])
  }
}
