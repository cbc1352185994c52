/** The inductive invariants of the session table and of its sessions. */
module SessionInvariants {
  import opened Wrappers
  import opened RelayRoom
  import opened RelaySession
  import opened SessionSystem

  // ---- the table ----

  ghost predicate MutexOk(s: State) {
    && (forall h <- s.handlers :: s.mu == Some(h) <==> s.handlers[h].Pruning?)
    && (s.mu.Some? ==> s.mu.value in s.handlers)
  }

  ghost predicate ListedOk(s: State) {
    forall k <- s.table :: s.table[k] in s.place && s.place[s.table[k]] == Listed(k)
  }

  ghost predicate HeldOk(s: State) {
    forall h, sid | h in s.handlers && sid in s.handlers[h].Held() ::
      sid in s.place && s.place[sid] == HeldBy(h)
  }

  /** The session is where it was last put. */
  ghost predicate InPlace(s: State, sid: Sid)
    requires sid in s.place
  {
    match s.place[sid]
    case Listed(k) => k in s.table && s.table[k] == sid
    case HeldBy(h) => h in s.handlers && sid in s.handlers[h].Held()
  }

  ghost predicate Accounted(s: State, sid: Sid)
    requires sid in s.sessions && sid in s.place
  {
    s.sessions[sid].revoked || InPlace(s, sid)
  }

  ghost predicate PlacesOk(s: State) {
    && s.place.Keys == s.sessions.Keys
    && forall sid <- s.sessions :: Accounted(s, sid)
  }

  ghost predicate TableInv(s: State) {
    && MutexOk(s)
    && ListedOk(s)
    && HeldOk(s)
    && PlacesOk(s)
  }

  /** A login's token hash is not in the table when it is inserted: tokens carry fresh
      entropy and their hashes do not collide. */
  ghost predicate Fresh(s: State, step: Step) {
    match step
    case Unlock(h, sid) =>
      h in s.handlers && s.handlers[h].Pruning? && s.handlers[h].purpose.Create? ==>
        s.handlers[h].purpose.hash !in TakeCookie(s, h, s.handlers[h].purpose.cookie).0.table
    case _ => true
  }

  ghost predicate FreshRun(s: State, steps: seq<Step>)
    decreases |steps|
  {
    steps == [] || (Fresh(s, steps[0]) && FreshRun(Do(s, steps[0]), steps[1..]))
  }

  /** The handlers of `s` hold and lock what they did; a new one holds and locks nothing. */
  ghost predicate SameHolders(s: State, s': State) {
    && s.handlers.Keys <= s'.handlers.Keys
    && (forall h <- s.handlers ::
          s'.handlers[h].Held() == s.handlers[h].Held() && s'.handlers[h].Pruning? == s.handlers[h].Pruning?)
    && (forall h <- s'.handlers :: h !in s.handlers ==> !s'.handlers[h].Pruning? && s'.handlers[h].Held() == {})
  }

  lemma OneHolder(s: State, s': State, h: Hid)
    requires h in s'.handlers && s'.handlers == s.handlers[h := s'.handlers[h]]
    requires if h in s.handlers then s'.handlers[h].Held() == s.handlers[h].Held()
                                     && s'.handlers[h].Pruning? == s.handlers[h].Pruning?
             else !s'.handlers[h].Pruning? && s'.handlers[h].Held() == {}
    ensures SameHolders(s, s')
  {
  }

  /** Steps that leave the table, the places and what is held alone. */
  lemma FrameTable(s: State, s': State)
    requires TableInv(s) && SameHolders(s, s')
    requires s'.table == s.table && s'.place == s.place && s'.mu == s.mu
    requires s'.sessions.Keys == s.sessions.Keys
    requires forall sid <- s.sessions :: s.sessions[sid].revoked ==> s'.sessions[sid].revoked
    ensures TableInv(s')
  {
    FrameMutex(s, s');
    FrameHeld(s, s');
    FramePlaces(s, s');
  }

  lemma FrameMutex(s: State, s': State)
    requires MutexOk(s) && SameHolders(s, s') && s'.mu == s.mu
    ensures MutexOk(s')
  {
    forall h | h in s'.handlers ensures s'.mu == Some(h) <==> s'.handlers[h].Pruning? {
      if h in s.handlers {
        assert s.mu == Some(h) <==> s.handlers[h].Pruning?;
      }
    }
  }

  lemma FrameHeld(s: State, s': State)
    requires HeldOk(s) && SameHolders(s, s') && s'.place == s.place
    ensures HeldOk(s')
  {
    forall h, sid | h in s'.handlers && sid in s'.handlers[h].Held()
      ensures sid in s'.place && s'.place[sid] == HeldBy(h)
    {
      assert h in s.handlers && sid in s.handlers[h].Held();
    }
  }

  lemma FramePlaces(s: State, s': State)
    requires PlacesOk(s) && SameHolders(s, s') && s'.place == s.place && s'.table == s.table
    requires s'.sessions.Keys == s.sessions.Keys
    requires forall sid <- s.sessions :: s.sessions[sid].revoked ==> s'.sessions[sid].revoked
    ensures PlacesOk(s')
  {
    forall sid | sid in s'.sessions ensures Accounted(s', sid) {
      assert Accounted(s, sid);
    }
  }

  lemma LockKeepsTable(s: State, h: Hid)
    requires TableInv(s)
    ensures TableInv(DoLock(s, h))
  {
    var s' := DoLock(s, h);
    if s' != s {
      assert HeldOk(s');
      forall sid | sid in s'.sessions ensures sid in s'.place && Accounted(s', sid) {
        assert Accounted(s, sid);
      }
    }
  }

  lemma PruneKeepsTable(s: State, h: Hid, hash: Hash)
    requires TableInv(s)
    ensures TableInv(DoPrune(s, h, hash))
  {
    PruneKeepsMutex(s, h, hash);
    PruneKeepsListed(s, h, hash);
    PruneKeepsHeld(s, h, hash);
    PruneKeepsPlaces(s, h, hash);
  }

  lemma PruneKeepsMutex(s: State, h: Hid, hash: Hash)
    requires MutexOk(s)
    ensures MutexOk(DoPrune(s, h, hash))
  {
  }

  lemma PruneKeepsListed(s: State, h: Hid, hash: Hash)
    requires ListedOk(s)
    ensures ListedOk(DoPrune(s, h, hash))
  {
  }

  lemma PruneKeepsHeld(s: State, h: Hid, hash: Hash)
    requires ListedOk(s) && HeldOk(s)
    ensures HeldOk(DoPrune(s, h, hash))
  {
    if h in s.handlers && s.handlers[h].Pruning? && hash in s.handlers[h].todo {
      if Survives(s, h, hash) {
        var s' := Passed(s, h, hash);
        OneHolder(s, s', h);
        FrameHeld(s, s');
        assert DoPrune(s, h, hash) == s';
      } else {
        TakingKeepsHeld(s, DoPrune(s, h, hash), h, s.table[hash]);
      }
    } else {
      assert DoPrune(s, h, hash) == s;
    }
  }

  /** A prune passes an entry that is gone or valid. */
  predicate Survives(s: State, h: Hid, hash: Hash)
    requires h in s.handlers && s.handlers[h].Pruning?
  {
    hash !in s.table || (s.table[hash] in s.sessions && s.sessions[s.table[hash]].Valid(s.handlers[h].now))
  }

  function Passed(s: State, h: Hid, hash: Hash): State
    requires h in s.handlers && s.handlers[h].Pruning?
  {
    s.(handlers := s.handlers[h := s.handlers[h].(todo := s.handlers[h].todo - {hash})])
  }

  /** A handler takes one listed session. */
  lemma TakingKeepsHeld(s: State, s': State, h: Hid, x: Sid)
    requires HeldOk(s) && x in s.place && s.place[x].Listed? && h in s.handlers && h in s'.handlers
    requires s'.place == s.place[x := HeldBy(h)] && s'.handlers == s.handlers[h := s'.handlers[h]]
    requires s'.handlers[h].Held() == s.handlers[h].Held() + {x}
    ensures HeldOk(s')
  {
    forall g, sid | g in s'.handlers && sid in s'.handlers[g].Held()
      ensures sid in s'.place && s'.place[sid] == HeldBy(g)
    {
      if sid != x {
        assert sid in s.handlers[g].Held();
      }
    }
  }

  lemma PruneKeepsPlaces(s: State, h: Hid, hash: Hash)
    requires ListedOk(s) && PlacesOk(s)
    ensures PlacesOk(DoPrune(s, h, hash))
  {
    if h in s.handlers && s.handlers[h].Pruning? && hash in s.handlers[h].todo {
      if Survives(s, h, hash) {
        var s' := Passed(s, h, hash);
        OneHolder(s, s', h);
        FramePlaces(s, s');
        assert DoPrune(s, h, hash) == s';
      } else {
        TakingKeepsPlaces(s, DoPrune(s, h, hash), h, hash);
      }
    } else {
      assert DoPrune(s, h, hash) == s;
    }
  }

  lemma TakingKeepsPlaces(s: State, s': State, h: Hid, hash: Hash)
    requires ListedOk(s) && PlacesOk(s) && h in s.handlers && h in s'.handlers && hash in s.table
    requires s'.table == s.table - {hash} && s'.sessions == s.sessions
    requires s'.place == s.place[s.table[hash] := HeldBy(h)] && s'.handlers == s.handlers[h := s'.handlers[h]]
    requires s'.handlers[h].Held() == s.handlers[h].Held() + {s.table[hash]}
    ensures PlacesOk(s')
  {
    assert s'.place.Keys == s.place.Keys;
    forall sid | sid in s'.sessions ensures Accounted(s', sid) {
      assert Accounted(s, sid);
    }
  }

  /** After `h` takes sessions out: everything is in place once `h` is seen to hold them. */
  ghost predicate TakenOut(s: State, h: Hid, taken: set<Sid>, t: State) {
    && t == s.(table := t.table, place := t.place)
    && t.table.Keys <= s.table.Keys
    && t.place.Keys == s.place.Keys
    && (forall k <- t.table :: t.table[k] == s.table[k])
    && (forall sid <- t.place :: t.place[sid] == if sid in taken then HeldBy(h) else s.place[sid])
    && (forall k <- s.table :: s.table[k] in taken <==> k !in t.table)
    && taken <= s.table.Values
  }

  lemma TakeOutTakes(s: State, h: Hid, hash: Hash)
    requires TableInv(s)
    ensures TakenOut(s, h, TakeOut(s, h, hash).1, TakeOut(s, h, hash).0)
  {
  }

  /** Handing what was taken out to a handler that then waits to revoke it. */
  lemma HandOverKeepsTable(s: State, h: Hid, taken: set<Sid>, t: State, held: set<Sid>, mu: Option<Hid>, s': State)
    requires TableInv(s) && TakenOut(s, h, taken, t)
    requires held == taken + (if h in s.handlers then s.handlers[h].Held() else {})
    requires mu == if s.mu == Some(h) then None else s.mu
    requires s' == t.(mu := mu, handlers := t.handlers[h := Revoking(held)])
    ensures TableInv(s') && |t.table| <= |s.table|
  {
    HandOverKeepsMutex(s, h, t, held, mu);
    HandOverKeepsListed(s, h, taken, t, s');
    HandOverKeepsHeld(s, h, taken, t, held, mu);
    HandOverKeepsPlaces(s, h, taken, t, held, mu);
    SubsetSize(t.table.Keys, s.table.Keys);
  }

  lemma HandOverKeepsMutex(s: State, h: Hid, t: State, held: set<Sid>, mu: Option<Hid>)
    requires MutexOk(s) && t.handlers == s.handlers && mu == if s.mu == Some(h) then None else s.mu
    ensures MutexOk(t.(mu := mu, handlers := t.handlers[h := Revoking(held)]))
  {
  }

  lemma HandOverKeepsListed(s: State, h: Hid, taken: set<Sid>, t: State, s': State)
    requires ListedOk(s) && TakenOut(s, h, taken, t) && s'.table == t.table && s'.place == t.place
    ensures ListedOk(s')
  {
    forall k | k in s'.table ensures s'.table[k] in s'.place && s'.place[s'.table[k]] == Listed(k) {
      assert s.place[s.table[k]] == Listed(k);
    }
  }

  lemma HandOverKeepsHeld(s: State, h: Hid, taken: set<Sid>, t: State, held: set<Sid>, mu: Option<Hid>)
    requires ListedOk(s) && HeldOk(s) && TakenOut(s, h, taken, t)
    requires held == taken + (if h in s.handlers then s.handlers[h].Held() else {})
    ensures HeldOk(t.(mu := mu, handlers := t.handlers[h := Revoking(held)]))
  {
    forall sid | sid in taken ensures sid in s.place && s.place[sid].Listed? {
      var k :| k in s.table && s.table[k] == sid;
    }
  }

  lemma HandOverKeepsPlaces(s: State, h: Hid, taken: set<Sid>, t: State, held: set<Sid>, mu: Option<Hid>)
    requires ListedOk(s) && PlacesOk(s) && TakenOut(s, h, taken, t)
    requires held == taken + (if h in s.handlers then s.handlers[h].Held() else {})
    ensures PlacesOk(t.(mu := mu, handlers := t.handlers[h := Revoking(held)]))
  {
    var s' := t.(mu := mu, handlers := t.handlers[h := Revoking(held)]);
    forall sid | sid in s'.sessions ensures sid in s'.place && Accounted(s', sid) {
      assert Accounted(s, sid);
    }
  }

  lemma SubsetSize<T>(a: set<T>, b: set<T>)
    requires a <= b
    ensures |a| <= |b|
  {
    assert b == a + (b - a);
  }

  lemma DeleteKeepsTable(s: State, h: Hid, hash: Hash)
    requires TableInv(s)
    ensures TableInv(DoDelete(s, h, hash))
  {
    if h !in s.handlers && s.mu.None? {
      var (t, taken) := TakeOut(s, h, hash);
      TakeOutTakes(s, h, hash);
      HandOverKeepsTable(s, h, taken, t, taken, None, DoDelete(s, h, hash));
    }
  }

  lemma AuthenticateKeepsTable(s: State, h: Hid, hash: Hash, now: Time)
    requires TableInv(s)
    ensures TableInv(DoAuthenticate(s, h, hash, now))
  {
    if h !in s.handlers && s.mu.None? {
      if hash !in s.table || (s.table[hash] in s.sessions && s.sessions[s.table[hash]].Valid(now)) {
        OneHolder(s, DoAuthenticate(s, h, hash, now), h);
        FrameTable(s, DoAuthenticate(s, h, hash, now));
      } else {
        var (t, taken) := TakeOut(s, h, hash);
        TakeOutTakes(s, h, hash);
        HandOverKeepsTable(s, h, taken, t, taken, None, DoAuthenticate(s, h, hash, now));
      }
    }
  }

  lemma CloseTableKeepsTable(s: State, h: Hid)
    requires TableInv(s)
    ensures TableInv(DoCloseTable(s, h))
  {
    if h in s.handlers && s.handlers[h].Closing? && s.mu.None? {
      CloseTakesAll(s, h);
      HandOverKeepsTable(s, h, s.table.Values, Cleared(s, h), s.table.Values, None, DoCloseTable(s, h));
    }
  }

  function Cleared(s: State, h: Hid): State {
    s.(table := map[],
       place := map sid | sid in s.place :: if sid in s.table.Values then HeldBy(h) else s.place[sid])
  }

  lemma CloseTakesAll(s: State, h: Hid)
    requires ListedOk(s)
    ensures TakenOut(s, h, s.table.Values, Cleared(s, h))
  {
  }

  lemma RevokeKeepsTable(s: State, h: Hid, sid: Sid)
    requires TableInv(s)
    ensures TableInv(DoRevoke(s, h, sid))
  {
    var s' := DoRevoke(s, h, sid);
    if s' != s {
      assert s'.sessions.Keys == s.sessions.Keys;
      forall x | x in s'.sessions ensures x in s'.place && Accounted(s', x) {
        assert Accounted(s, x);
      }
    }
  }

  lemma InsertKeepsTable(s: State, hash: Hash, sid: Sid, expiresAt: Time)
    requires TableInv(s) && hash !in s.table && sid !in s.sessions
    ensures TableInv(Insert(s, hash, sid, expiresAt))
  {
    var s' := Insert(s, hash, sid, expiresAt);
    assert ListedOk(s');
    assert HeldOk(s');
    forall x | x in s'.sessions ensures x in s'.place && Accounted(s', x) {
      if x != sid {
        InsertKeepsAccounted(s, hash, sid, expiresAt, x);
      }
    }
  }

  lemma InsertKeepsAccounted(s: State, hash: Hash, sid: Sid, expiresAt: Time, x: Sid)
    requires x in s.sessions && x in s.place && x != sid && Accounted(s, x)
    requires hash in s.table ==> s.table[hash] != x
    ensures Accounted(Insert(s, hash, sid, expiresAt), x)
  {
  }

  lemma UnlockKeepsTable(s: State, h: Hid, sid: Sid)
    requires TableInv(s) && Fresh(s, Unlock(h, sid))
    ensures TableInv(DoUnlock(s, h, sid))
  {
    if h in s.handlers && s.handlers[h].Pruning? && s.handlers[h].todo == {} {
      var w := s.handlers[h];
      if w.purpose.Janitor? {
        HandOverKeepsTable(s, h, {}, s, w.expired, None, DoUnlock(s, h, sid));
      } else if sid !in s.sessions {
        LoginKeepsTable(s, h, sid);
      } else {
        assert DoUnlock(s, h, sid) == s;
      }
    } else {
      assert DoUnlock(s, h, sid) == s;
    }
  }

  lemma TakeCookieTakes(s: State, h: Hid, cookie: Option<Hash>)
    requires TableInv(s)
    ensures TakenOut(s, h, TakeCookie(s, h, cookie).1, TakeCookie(s, h, cookie).0)
  {
    if cookie.Some? {
      TakeOutTakes(s, h, cookie.value);
    }
  }

  /** What a login changes before it inserts. */
  /** Who is listed or held may differ, and what the handlers do; no session, visit or limit. */
  ghost predicate OnlyHandles(s: State, s': State) {
    s' == s.(ready := s'.ready, table := s'.table, place := s'.place, mu := s'.mu, handlers := s'.handlers)
  }

  lemma OtherStepOnlyHandles(s: State, step: Step)
    requires !step.Unlock? && !step.Revoke? && !step.ExpireSession?
    requires !step.Reserve? && !step.Attach? && !step.Release?
    ensures OnlyHandles(s, Do(s, step))
  {
    match step
    case Prune(h, hash) => PruneOnlyHandles(s, h, hash);
    case Delete(h, hash) => DeleteOnlyHandles(s, h, hash);
    case Authenticate(h, hash, now) => AuthenticateOnlyHandles(s, h, hash, now);
    case _ =>
  }

  lemma PruneOnlyHandles(s: State, h: Hid, hash: Hash)
    ensures OnlyHandles(s, DoPrune(s, h, hash))
  {
  }

  lemma DeleteOnlyHandles(s: State, h: Hid, hash: Hash)
    ensures OnlyHandles(s, DoDelete(s, h, hash))
  {
  }

  lemma AuthenticateOnlyHandles(s: State, h: Hid, hash: Hash, now: Time)
    ensures OnlyHandles(s, DoAuthenticate(s, h, hash, now))
  {
  }

  lemma BeforeInsertShape(s: State, h: Hid)
    requires h in s.handlers && s.handlers[h].Pruning? && s.handlers[h].purpose.Create?
    ensures var u := BeforeInsert(s, h);
            && h in u.handlers && u.handlers[h].Revoking?
            && u == s.(table := u.table, place := u.place, mu := None, handlers := s.handlers[h := u.handlers[h]])
  {
  }

  lemma BeforeInsertKeepsTable(s: State, h: Hid)
    requires TableInv(s)
    requires h in s.handlers && s.handlers[h].Pruning? && s.handlers[h].purpose.Create?
    ensures TableInv(BeforeInsert(s, h))
  {
    var w := s.handlers[h];
    var (t, replaced) := TakeCookie(s, h, w.purpose.cookie);
    TakeCookieTakes(s, h, w.purpose.cookie);
    HandOverKeepsTable(s, h, replaced, t, w.expired + replaced, None, BeforeInsert(s, h));
  }

  lemma LoginKeepsTable(s: State, h: Hid, sid: Sid)
    requires TableInv(s) && Fresh(s, Unlock(h, sid))
    requires h in s.handlers && s.handlers[h].Pruning? && s.handlers[h].purpose.Create?
    requires s.handlers[h].todo == {} && sid !in s.sessions
    ensures TableInv(DoUnlock(s, h, sid))
  {
    var u, p := BeforeInsert(s, h), s.handlers[h].purpose;
    BeforeInsertKeepsTable(s, h);
    if |u.table| >= u.maxSessions {
      assert DoUnlock(s, h, sid) == u;
    } else {
      InsertKeepsTable(u, p.hash, sid, p.expiresAt);
      assert DoUnlock(s, h, sid) == Insert(u, p.hash, sid, p.expiresAt);
    }
  }

  lemma BeginKeepsTable(s: State, h: Hid, handler: Handler)
    requires TableInv(s) && !handler.Pruning? && handler.Held() == {}
    ensures TableInv(DoBegin(s, h, handler))
  {
    if h !in s.handlers {
      OneHolder(s, DoBegin(s, h, handler), h);
      FrameTable(s, DoBegin(s, h, handler));
    }
  }

  lemma BeginCloseKeepsTable(s: State, h: Hid)
    requires TableInv(s)
    ensures TableInv(DoBeginClose(s, h))
  {
    if h !in s.handlers && s.ready {
      OneHolder(s, DoBeginClose(s, h), h);
      FrameTable(s, DoBeginClose(s, h));
    }
  }

  lemma ExpireSessionKeepsTable(s: State, sid: Sid)
    requires TableInv(s)
    ensures TableInv(DoExpireSession(s, sid))
  {
    FrameTable(s, DoExpireSession(s, sid));
  }

  lemma ReserveKeepsTable(s: State, h: Hid, r: Rid, now: Time)
    requires TableInv(s)
    ensures TableInv(DoReserve(s, h, r, now))
  {
    if h in s.handlers && s.handlers[h].Authenticated? && r !in s.visits {
      var sid, t := s.handlers[h].sid, s.(handlers := s.handlers[h := Finished]);
      OneHolder(s, t, h);
      FrameTable(s, t);
      if sid in s.sessions && s.sessions[sid].CanReserve(now, s.maxViewers) {
        var u := t.(sessions := s.sessions[sid := s.sessions[sid].Reserve(r)],
                    visits := s.visits[r := Visit(sid, None, true)]);
        FrameTable(t, u);
        assert DoReserve(s, h, r, now) == u;
      } else {
        assert DoReserve(s, h, r, now) == t;
      }
    } else {
      assert DoReserve(s, h, r, now) == s;
    }
  }

  lemma AttachKeepsTable(s: State, r: Rid, conn: Conn, now: Time)
    requires TableInv(s)
    ensures TableInv(DoAttach(s, r, conn, now))
  {
    FrameTable(s, DoAttach(s, r, conn, now));
  }

  lemma ReleaseKeepsTable(s: State, r: Rid)
    requires TableInv(s)
    ensures TableInv(DoRelease(s, r))
  {
    FrameTable(s, DoRelease(s, r));
  }

  lemma StepKeepsTable(s: State, step: Step)
    requires TableInv(s) && Fresh(s, step)
    ensures TableInv(Do(s, step))
  {
    match step
    case BeginCreate(h, now, cookie, hash, expiresAt) =>
      BeginKeepsTable(s, h, Waiting(now, Create(cookie, hash, expiresAt)));
    case BeginJanitor(h, now) => BeginKeepsTable(s, h, Waiting(now, Janitor));
    case Lock(h) => LockKeepsTable(s, h);
    case Prune(h, hash) => PruneKeepsTable(s, h, hash);
    case Unlock(h, sid) => UnlockKeepsTable(s, h, sid);
    case Delete(h, hash) => DeleteKeepsTable(s, h, hash);
    case Authenticate(h, hash, now) => AuthenticateKeepsTable(s, h, hash, now);
    case BeginClose(h) => BeginCloseKeepsTable(s, h);
    case CloseTable(h) => CloseTableKeepsTable(s, h);
    case Revoke(h, sid) => RevokeKeepsTable(s, h, sid);
    case ExpireSession(sid) => ExpireSessionKeepsTable(s, sid);
    case Reserve(h, r, now) => ReserveKeepsTable(s, h, r, now);
    case Attach(r, conn, now) => AttachKeepsTable(s, r, conn, now);
    case Release(r) => ReleaseKeepsTable(s, r);
  }

  // ---- one session and its viewers ----

  ghost predicate SessionOk(s: State, sid: Sid)
    requires sid in s.sessions
  {
    var t := s.sessions[sid];
    && t.closes == (if t.revoked then 1 else 0)
    && |t.viewers| <= s.maxViewers
    && (forall r :: r in t.viewers <==> r in s.visits && s.visits[r].present && s.visits[r].sid == sid)
    && (forall r :: r in t.conns <==> r in t.viewers && s.visits[r].conn.Some?)
    && (forall r <- t.conns :: s.visits[r].conn == Some(t.conns[r]))
    && sid in s.collected
    && (t.revoked ==> t.conns.Values <= s.collected[sid])
  }

  ghost predicate KnownSessions(s: State) {
    && (forall r <- s.visits :: s.visits[r].sid in s.sessions)
    && (forall h <- s.handlers :: s.handlers[h].Authenticated? ==> s.handlers[h].sid in s.sessions)
    && (forall k <- s.table :: s.table[k] in s.sessions)
  }

  ghost predicate SessionsInv(s: State) {
    && KnownSessions(s)
    && (forall sid <- s.sessions :: SessionOk(s, sid))
    && |s.table| <= s.maxSessions
  }

  lemma FrameSession(s: State, s': State, sid: Sid)
    requires sid in s.sessions && SessionOk(s, sid)
    requires sid in s'.sessions && s'.sessions[sid] == s.sessions[sid] && s'.maxViewers == s.maxViewers
    requires s'.visits == s.visits && sid in s'.collected && s'.collected[sid] == s.collected[sid]
    ensures SessionOk(s', sid)
  {
  }

  lemma RevokedKeepsSession(s: State, x: Sid, sid: Sid)
    requires x in s.sessions && sid in s.sessions && SessionOk(s, sid)
    ensures SessionOk(Revoked(s, x), sid)
  {
    if x != sid {
      FrameSession(s, Revoked(s, x), sid);
    }
  }

  lemma RevokeKeepsSessions(s: State, h: Hid, x: Sid)
    requires SessionsInv(s)
    ensures SessionsInv(DoRevoke(s, h, x))
  {
    var s' := DoRevoke(s, h, x);
    if s' != s {
      forall sid | sid in s'.sessions ensures SessionOk(s', sid) {
        RevokedKeepsSession(s, x, sid);
        FrameSession(Revoked(s, x), s', sid);
      }
    }
  }

  lemma ExpireKeepsSessions(s: State, x: Sid)
    requires SessionsInv(s)
    ensures SessionsInv(DoExpireSession(s, x))
  {
    if x in s.sessions {
      forall sid | sid in s.sessions ensures SessionOk(Revoked(s, x), sid) {
        RevokedKeepsSession(s, x, sid);
      }
    }
  }

  lemma ReserveKeepsSession(s: State, h: Hid, r: Rid, now: Time, sid: Sid)
    requires sid in s.sessions && SessionOk(s, sid)
    ensures SessionOk(DoReserve(s, h, r, now), sid)
  {
    var s' := DoReserve(s, h, r, now);
    if s'.visits != s.visits {
      ReservedKeepsSession(s, s', s.handlers[h].sid, r, sid);
    }
  }

  lemma ReservedKeepsSession(s: State, s': State, x: Sid, r: Rid, sid: Sid)
    requires sid in s.sessions && SessionOk(s, sid) && x in s.sessions && r !in s.visits
    requires |s.sessions[x].viewers| < s.maxViewers && s'.maxViewers == s.maxViewers && s'.collected == s.collected
    requires s'.sessions == s.sessions[x := s.sessions[x].Reserve(r)]
    requires s'.visits == s.visits[r := Visit(x, None, true)]
    ensures SessionOk(s', sid)
  {
    if sid == x {
      assert s'.sessions[sid] == s.sessions[sid].Reserve(r);
    } else {
      assert s'.sessions[sid] == s.sessions[sid];
    }
  }

  lemma AttachKeepsSession(s: State, r: Rid, conn: Conn, now: Time, sid: Sid)
    requires sid in s.sessions && SessionOk(s, sid)
    ensures SessionOk(DoAttach(s, r, conn, now), sid)
  {
  }

  lemma ReleaseKeepsSession(s: State, r: Rid, sid: Sid)
    requires sid in s.sessions && SessionOk(s, sid)
    ensures SessionOk(DoRelease(s, r), sid)
  {
    var s' := DoRelease(s, r);
    SubsetSize(s'.sessions[sid].viewers, s.sessions[sid].viewers);
    assert s'.sessions[sid].conns.Values <= s.sessions[sid].conns.Values;
  }

  lemma ReserveKeepsSessions(s: State, h: Hid, r: Rid, now: Time)
    requires SessionsInv(s)
    ensures SessionsInv(DoReserve(s, h, r, now))
  {
    var s' := DoReserve(s, h, r, now);
    ReserveKeepsKnown(s, h, r, now);
    forall sid | sid in s'.sessions ensures SessionOk(s', sid) {
      assert SessionOk(s, sid);
      ReserveKeepsSession(s, h, r, now, sid);
    }
  }

  lemma ReserveKeepsKnown(s: State, h: Hid, r: Rid, now: Time)
    requires KnownSessions(s)
    ensures KnownSessions(DoReserve(s, h, r, now))
    ensures DoReserve(s, h, r, now).sessions.Keys == s.sessions.Keys
    ensures DoReserve(s, h, r, now).table == s.table && DoReserve(s, h, r, now).maxSessions == s.maxSessions
  {
    if h in s.handlers && s.handlers[h].Authenticated? && r !in s.visits {
      var sid, t := s.handlers[h].sid, s.(handlers := s.handlers[h := Finished]);
      assert KnownSessions(t);
      if sid in s.sessions && s.sessions[sid].CanReserve(now, s.maxViewers) {
        var u := t.(sessions := s.sessions[sid := s.sessions[sid].Reserve(r)],
                    visits := s.visits[r := Visit(sid, None, true)]);
        assert KnownSessions(u);
        assert DoReserve(s, h, r, now) == u;
      } else {
        assert DoReserve(s, h, r, now) == t;
      }
    } else {
      assert DoReserve(s, h, r, now) == s;
    }
  }

  lemma AttachKeepsSessions(s: State, r: Rid, conn: Conn, now: Time)
    requires SessionsInv(s)
    ensures SessionsInv(DoAttach(s, r, conn, now))
  {
    var s' := DoAttach(s, r, conn, now);
    assert KnownSessions(s');
    forall sid | sid in s'.sessions ensures SessionOk(s', sid) {
      AttachKeepsSession(s, r, conn, now, sid);
    }
  }

  lemma ReleaseKeepsSessions(s: State, r: Rid)
    requires SessionsInv(s)
    ensures SessionsInv(DoRelease(s, r))
  {
    var s' := DoRelease(s, r);
    assert KnownSessions(s');
    forall sid | sid in s'.sessions ensures SessionOk(s', sid) {
      ReleaseKeepsSession(s, r, sid);
    }
  }

  // ---- the steps that only take sessions out of the table ----

  ghost predicate TableShrinks(s: State, s': State) {
    && s' == s.(ready := s'.ready, table := s'.table, mu := s'.mu, handlers := s'.handlers, place := s'.place)
    && s'.table.Keys <= s.table.Keys
    && (forall k <- s'.table :: s'.table[k] == s.table[k])
    && (forall h <- s'.handlers :: s'.handlers[h].Authenticated? ==>
          (h in s.handlers && s'.handlers[h] == s.handlers[h]) || s'.handlers[h].sid in s.sessions)
  }

  lemma ShrinkKeepsSessions(s: State, s': State)
    requires SessionsInv(s) && TableShrinks(s, s')
    ensures SessionsInv(s')
  {
    SubsetSize(s'.table.Keys, s.table.Keys);
    assert KnownSessions(s');
    forall sid | sid in s'.sessions ensures SessionOk(s', sid) {
      FrameSession(s, s', sid);
    }
  }

  lemma TakeOutShrinks(s: State, h: Hid, hash: Hash, t: State, taken: set<Sid>)
    requires (t, taken) == TakeOut(s, h, hash)
    ensures t == s.(table := s.table - {hash}, place := t.place)
  {
  }

  lemma HandOverShrinks(s: State, h: Hid, t: State, held: set<Sid>, mu: Option<Hid>)
    requires t == s.(table := t.table, place := t.place)
    requires t.table.Keys <= s.table.Keys && forall k <- t.table :: t.table[k] == s.table[k]
    ensures TableShrinks(s, t.(mu := mu, handlers := t.handlers[h := Revoking(held)]))
  {
  }

  lemma LockKeepsSessions(s: State, h: Hid)
    requires SessionsInv(s)
    ensures SessionsInv(DoLock(s, h))
  {
    LockShrinks(s, h);
    ShrinkKeepsSessions(s, DoLock(s, h));
  }

  lemma LockShrinks(s: State, h: Hid)
    ensures TableShrinks(s, DoLock(s, h))
  {
  }

  lemma PruneKeepsSessions(s: State, h: Hid, hash: Hash)
    requires SessionsInv(s)
    ensures SessionsInv(DoPrune(s, h, hash))
  {
    PruneShrinks(s, h, hash);
    ShrinkKeepsSessions(s, DoPrune(s, h, hash));
  }

  lemma PruneShrinks(s: State, h: Hid, hash: Hash)
    ensures TableShrinks(s, DoPrune(s, h, hash))
  {
  }

  lemma DeleteKeepsSessions(s: State, h: Hid, hash: Hash)
    requires SessionsInv(s)
    ensures SessionsInv(DoDelete(s, h, hash))
  {
    if h !in s.handlers && s.mu.None? {
      var (t, taken) := TakeOut(s, h, hash);
      TakeOutShrinks(s, h, hash, t, taken);
      HandOverShrinks(s, h, t, taken, t.mu);
      ShrinkKeepsSessions(s, DoDelete(s, h, hash));
    }
  }

  lemma AuthenticateKeepsSessions(s: State, h: Hid, hash: Hash, now: Time)
    requires SessionsInv(s)
    ensures SessionsInv(DoAuthenticate(s, h, hash, now))
  {
    if h in s.handlers || s.mu.Some? {
      assert DoAuthenticate(s, h, hash, now) == s;
    } else if hash !in s.table {
      HandlerKeepsSessions(s, h, Finished);
    } else if s.table[hash] in s.sessions && s.sessions[s.table[hash]].Valid(now) {
      HandlerKeepsSessions(s, h, Authenticated(s.table[hash]));
    } else {
      var (t, taken) := TakeOut(s, h, hash);
      TakeOutShrinks(s, h, hash, t, taken);
      HandOverShrinks(s, h, t, taken, t.mu);
      ShrinkKeepsSessions(s, t.(mu := t.mu, handlers := t.handlers[h := Revoking(taken)]));
    }
  }

  lemma HandlerKeepsSessions(s: State, h: Hid, handler: Handler)
    requires SessionsInv(s) && (handler.Authenticated? ==> handler.sid in s.sessions)
    ensures SessionsInv(s.(handlers := s.handlers[h := handler]))
  {
    assert TableShrinks(s, s.(handlers := s.handlers[h := handler]));
    ShrinkKeepsSessions(s, s.(handlers := s.handlers[h := handler]));
  }

  lemma CloseTableKeepsSessions(s: State, h: Hid)
    requires SessionsInv(s)
    ensures SessionsInv(DoCloseTable(s, h))
  {
    CloseTableShrinks(s, h);
    ShrinkKeepsSessions(s, DoCloseTable(s, h));
  }

  lemma CloseTableShrinks(s: State, h: Hid)
    ensures TableShrinks(s, DoCloseTable(s, h))
  {
  }

  lemma BeginKeepsSessions(s: State, h: Hid, handler: Handler)
    requires SessionsInv(s) && !handler.Authenticated?
    ensures SessionsInv(DoBegin(s, h, handler))
  {
    BeginShrinks(s, h, handler);
    ShrinkKeepsSessions(s, DoBegin(s, h, handler));
  }

  lemma BeginShrinks(s: State, h: Hid, handler: Handler)
    requires !handler.Authenticated?
    ensures TableShrinks(s, DoBegin(s, h, handler))
  {
  }

  lemma BeginCloseKeepsSessions(s: State, h: Hid)
    requires SessionsInv(s)
    ensures SessionsInv(DoBeginClose(s, h))
  {
    BeginCloseShrinks(s, h);
    ShrinkKeepsSessions(s, DoBeginClose(s, h));
  }

  lemma BeginCloseShrinks(s: State, h: Hid)
    ensures TableShrinks(s, DoBeginClose(s, h))
  {
  }

  lemma BeforeInsertShrinks(s: State, h: Hid)
    requires h in s.handlers && s.handlers[h].Pruning? && s.handlers[h].purpose.Create?
    ensures TableShrinks(s, BeforeInsert(s, h))
    ensures BeforeInsert(s, h).table == TakeCookie(s, h, s.handlers[h].purpose.cookie).0.table
  {
    var w := s.handlers[h];
    var (t, replaced) := TakeCookie(s, h, w.purpose.cookie);
    if w.purpose.cookie.Some? {
      TakeOutShrinks(s, h, w.purpose.cookie.value, t, replaced);
    }
    HandOverShrinks(s, h, t, w.expired + replaced, None);
  }

  lemma InsertKeepsSessions(s: State, hash: Hash, sid: Sid, expiresAt: Time)
    requires SessionsInv(s) && sid !in s.sessions && |s.table| < s.maxSessions
    ensures SessionsInv(Insert(s, hash, sid, expiresAt))
  {
    var s' := Insert(s, hash, sid, expiresAt);
    assert |s'.table| <= |s.table| + 1;
    assert KnownSessions(s');
    forall x | x in s'.sessions ensures SessionOk(s', x) {
      if x != sid {
        FrameSession(s, s', x);
      }
    }
  }

  lemma UnlockKeepsSessions(s: State, h: Hid, sid: Sid)
    requires SessionsInv(s)
    ensures SessionsInv(DoUnlock(s, h, sid))
  {
    if h in s.handlers && s.handlers[h].Pruning? && s.handlers[h].todo == {} {
      if s.handlers[h].purpose.Janitor? {
        HandOverShrinks(s, h, s, s.handlers[h].expired, None);
        ShrinkKeepsSessions(s, DoUnlock(s, h, sid));
      } else if sid !in s.sessions {
        LoginKeepsSessions(s, h, sid);
      } else {
        assert DoUnlock(s, h, sid) == s;
      }
    } else {
      assert DoUnlock(s, h, sid) == s;
    }
  }

  lemma LoginKeepsSessions(s: State, h: Hid, sid: Sid)
    requires SessionsInv(s) && h in s.handlers && s.handlers[h].Pruning? && s.handlers[h].purpose.Create?
    requires s.handlers[h].todo == {} && sid !in s.sessions
    ensures SessionsInv(DoUnlock(s, h, sid))
  {
    var u, p := BeforeInsert(s, h), s.handlers[h].purpose;
    BeforeInsertShrinks(s, h);
    ShrinkKeepsSessions(s, u);
    if |u.table| < u.maxSessions {
      InsertKeepsSessions(u, p.hash, sid, p.expiresAt);
      assert DoUnlock(s, h, sid) == Insert(u, p.hash, sid, p.expiresAt);
    } else {
      assert DoUnlock(s, h, sid) == u;
    }
  }

  lemma StepKeepsSessions(s: State, step: Step)
    requires SessionsInv(s)
    ensures SessionsInv(Do(s, step))
  {
    match step
    case BeginCreate(h, now, cookie, hash, expiresAt) =>
      BeginKeepsSessions(s, h, Waiting(now, Create(cookie, hash, expiresAt)));
    case BeginJanitor(h, now) => BeginKeepsSessions(s, h, Waiting(now, Janitor));
    case Lock(h) => LockKeepsSessions(s, h);
    case Prune(h, hash) => PruneKeepsSessions(s, h, hash);
    case Unlock(h, sid) => UnlockKeepsSessions(s, h, sid);
    case Delete(h, hash) => DeleteKeepsSessions(s, h, hash);
    case Authenticate(h, hash, now) => AuthenticateKeepsSessions(s, h, hash, now);
    case BeginClose(h) => BeginCloseKeepsSessions(s, h);
    case CloseTable(h) => CloseTableKeepsSessions(s, h);
    case Revoke(h, sid) => RevokeKeepsSessions(s, h, sid);
    case ExpireSession(sid) => ExpireKeepsSessions(s, sid);
    case Reserve(h, r, now) => ReserveKeepsSessions(s, h, r, now);
    case Attach(r, conn, now) => AttachKeepsSessions(s, r, conn, now);
    case Release(r) => ReleaseKeepsSessions(s, r);
  }
}
