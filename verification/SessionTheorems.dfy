/** What holds of the session table and of every session, over all runs. */
module SessionTheorems {
  import opened Wrappers
  import opened RelayRoom
  import opened RelaySession
  import opened SessionSystem
  import opened SessionInvariants

  /** In the table, revoked, or in the hands of a handler about to revoke it. */
  ghost predicate AccountedFor(s: State, sid: Sid)
    requires sid in s.sessions
  {
    || s.sessions[sid].revoked
    || sid in s.table.Values
    || exists h :: h in s.handlers && sid in s.handlers[h].Held()
  }

  lemma AccountedIsAccountedFor(s: State, sid: Sid)
    requires sid in s.sessions && sid in s.place && Accounted(s, sid)
    ensures AccountedFor(s, sid)
  {
    if !s.sessions[sid].revoked && s.place[sid].Listed? {
      assert s.table[s.place[sid].hash] == sid;
    }
  }

  lemma {:induction false} RunKeepsTable(s: State, steps: seq<Step>)
    requires TableInv(s) && FreshRun(s, steps)
    ensures TableInv(Run(s, steps))
    decreases |steps|
  {
    if steps != [] {
      StepKeepsTable(s, steps[0]);
      RunKeepsTable(Do(s, steps[0]), steps[1..]);
    }
  }

  lemma {:induction false} RunKeepsSessions(s: State, steps: seq<Step>)
    requires SessionsInv(s)
    ensures SessionsInv(Run(s, steps))
    decreases |steps|
  {
    if steps != [] {
      StepKeepsSessions(s, steps[0]);
      RunKeepsSessions(Do(s, steps[0]), steps[1..]);
    }
  }

  ghost predicate Reachable(s: State) {
    exists maxSessions: nat, maxViewers: nat, steps: seq<Step> :: s == Run(Init(maxSessions, maxViewers), steps)
  }

  lemma ReachableSessions(s: State)
    requires Reachable(s)
    ensures SessionsInv(s)
  {
    var maxSessions: nat, maxViewers: nat, steps: seq<Step> :| s == Run(Init(maxSessions, maxViewers), steps);
    RunKeepsSessions(Init(maxSessions, maxViewers), steps);
  }

  /** No session is ever lost, over every run whose logins draw fresh token hashes. */
  lemma EverySessionAccountedFor(maxSessions: nat, maxViewers: nat, steps: seq<Step>, sid: Sid)
    requires FreshRun(Init(maxSessions, maxViewers), steps)
    requires sid in Run(Init(maxSessions, maxViewers), steps).sessions
    ensures AccountedFor(Run(Init(maxSessions, maxViewers), steps), sid)
  {
    RunKeepsTable(Init(maxSessions, maxViewers), steps);
    AccountedIsAccountedFor(Run(Init(maxSessions, maxViewers), steps), sid);
  }

  /** Limits that need no freshness: the table, each session's viewers, and one close of `done`. */
  lemma LimitsHold(maxSessions: nat, maxViewers: nat, steps: seq<Step>)
    ensures
      var s := Run(Init(maxSessions, maxViewers), steps);
      && |s.table| <= maxSessions
      && (forall sid <- s.sessions :: |s.sessions[sid].viewers| <= maxViewers && s.sessions[sid].closes <= 1)
  {
    RunKeepsSessions(Init(maxSessions, maxViewers), steps);
    LimitsAreConstant(Init(maxSessions, maxViewers), steps);
  }

  lemma {:induction false} LimitsAreConstant(s: State, steps: seq<Step>)
    ensures Run(s, steps).maxSessions == s.maxSessions && Run(s, steps).maxViewers == s.maxViewers
    decreases |steps|
  {
    if steps != [] {
      LimitsKept(s, steps[0]);
      LimitsAreConstant(Do(s, steps[0]), steps[1..]);
    }
  }

  lemma LimitsKept(s: State, step: Step)
    ensures Do(s, step).maxSessions == s.maxSessions && Do(s, step).maxViewers == s.maxViewers
  {
    match step
    case Unlock(h, sid) => UnlockKeepsLimits(s, h, sid);
    case Revoke(h, sid) =>
    case ExpireSession(sid) =>
    case Reserve(h, r, now) =>
    case Attach(r, conn, now) =>
    case Release(r) =>
    case _ => OtherStepOnlyHandles(s, step);
  }

  lemma UnlockKeepsLimits(s: State, h: Hid, sid: Sid)
    ensures DoUnlock(s, h, sid).maxSessions == s.maxSessions && DoUnlock(s, h, sid).maxViewers == s.maxViewers
  {
    if h in s.handlers && s.handlers[h].Pruning? && s.handlers[h].purpose.Create? {
      BeforeInsertShape(s, h);
    }
  }

  /** A login that finds room loses a session exactly when its token hash already names
      one that is not revoked. */
  lemma LoginLosesSessionIff(s: State, h: Hid, sid: Sid)
    requires TableInv(s) && SessionsInv(s)
    requires h in s.handlers && s.handlers[h].Pruning? && s.handlers[h].purpose.Create?
    requires s.handlers[h].todo == {} && sid !in s.sessions
    requires |BeforeInsert(s, h).table| < s.maxSessions
    ensures
      var s', u, hash := DoUnlock(s, h, sid), BeforeInsert(s, h), s.handlers[h].purpose.hash;
      (exists x :: x in s'.sessions && !AccountedFor(s', x))
      <==> (hash in u.table && u.table[hash] in u.sessions && !u.sessions[u.table[hash]].revoked)
  {
    var u, p := BeforeInsert(s, h), s.handlers[h].purpose;
    BeforeInsertKeepsTable(s, h);
    BeforeInsertShrinks(s, h);
    ShrinkKeepsSessions(s, u);
    assert DoUnlock(s, h, sid) == Insert(u, p.hash, sid, p.expiresAt);
    InsertLosesIff(u, p.hash, sid, p.expiresAt);
  }

  lemma InsertLosesIff(u: State, hash: Hash, sid: Sid, expiresAt: Time)
    requires TableInv(u) && KnownSessions(u) && sid !in u.sessions
    ensures
      var s' := Insert(u, hash, sid, expiresAt);
      (exists x :: x in s'.sessions && !AccountedFor(s', x))
      <==> (hash in u.table && u.table[hash] in u.sessions && !u.sessions[u.table[hash]].revoked)
  {
    var s' := Insert(u, hash, sid, expiresAt);
    if hash in u.table && !u.sessions[u.table[hash]].revoked {
      InsertLosesListed(u, hash, sid, expiresAt);
    } else {
      forall x | x in s'.sessions ensures AccountedFor(s', x) {
        if x == sid {
          assert s'.table[hash] == sid;
        } else {
          assert Accounted(u, x);
          if hash !in u.table || u.table[hash] != x {
            InsertKeepsAccounted(u, hash, sid, expiresAt, x);
            AccountedIsAccountedFor(s', x);
          }
        }
      }
    }
  }

  lemma InsertLosesListed(u: State, hash: Hash, sid: Sid, expiresAt: Time)
    requires TableInv(u) && KnownSessions(u) && sid !in u.sessions
    requires hash in u.table && !u.sessions[u.table[hash]].revoked
    ensures
      var s', x := Insert(u, hash, sid, expiresAt), u.table[hash];
      x in s'.sessions && !AccountedFor(s', x)
  {
    var s', x := Insert(u, hash, sid, expiresAt), u.table[hash];
    forall k | k in s'.table ensures s'.table[k] != x {
      assert u.place[x] == Listed(hash);
    }
    forall g | g in s'.handlers ensures x !in s'.handlers[g].Held() {
      assert u.place[x] == Listed(hash);
    }
  }

  // ---- revocation ----

  /** The connections of the viewers attached to a session and not yet released. */
  ghost function AttachedTo(s: State, sid: Sid): set<Conn> {
    set r | r in s.visits && s.visits[r].present && s.visits[r].sid == sid && s.visits[r].conn.Some?
      :: s.visits[r].conn.value
  }

  lemma AttachedIsConns(s: State, sid: Sid)
    requires sid in s.sessions && SessionOk(s, sid)
    ensures AttachedTo(s, sid) == s.sessions[sid].conns.Values
  {
    forall c | c in s.sessions[sid].conns.Values ensures c in AttachedTo(s, sid) {
      var r :| r in s.sessions[sid].conns && s.sessions[sid].conns[r] == c;
      assert s.visits[r].conn == Some(c);
    }
    forall c | c in AttachedTo(s, sid) ensures c in s.sessions[sid].conns.Values {
      var r :| r in s.visits && s.visits[r].present && s.visits[r].sid == sid && s.visits[r].conn == Some(c);
      assert s.sessions[sid].conns[r] == c;
    }
  }

  /** The first revocation collects exactly the attached connections; no run from there
      attaches another to the session, reserves in it, or closes `done` again. */
  lemma RevocationMissesNoConnection(s: State, sid: Sid, steps: seq<Step>, r: Rid, now: Time, maximum: nat)
    requires Reachable(s) && sid in s.sessions && !s.sessions[sid].revoked
    ensures s.sessions[sid].Collected() == AttachedTo(s, sid)
    ensures
      var s' := Run(Revoked(s, sid), steps);
      && sid in s'.sessions && s'.sessions[sid].revoked && s'.sessions[sid].closes == 1
      && AttachedTo(s', sid) <= AttachedTo(s, sid)
      && !s'.sessions[sid].CanReserve(now, maximum) && !s'.sessions[sid].CanAttach(r, now)
  {
    ReachableSessions(s);
    AttachedIsConns(s, sid);
    var t := Revoked(s, sid);
    RevokedKeepsSessions(s, sid);
    assert t.sessions[sid].revoked && AttachedTo(t, sid) == AttachedTo(s, sid);
    RevokedRun(t, sid, steps);
  }

  lemma RevokedKeepsSessions(s: State, sid: Sid)
    requires SessionsInv(s) && sid in s.sessions
    ensures SessionsInv(Revoked(s, sid))
  {
    ExpireKeepsSessions(s, sid);
    assert DoExpireSession(s, sid) == Revoked(s, sid);
  }

  lemma RevokedRun(t: State, sid: Sid, steps: seq<Step>)
    requires SessionsInv(t) && sid in t.sessions && t.sessions[sid].revoked
    ensures
      var s' := Run(t, steps);
      && sid in s'.sessions && s'.sessions[sid].revoked && s'.sessions[sid].closes == 1
      && AttachedTo(s', sid) <= AttachedTo(t, sid)
  {
    RunKeepsSessions(t, steps);
    RevokedIsFinal(t, sid, steps);
    assert SessionOk(Run(t, steps), sid);
    AttachedIsConns(t, sid);
    AttachedIsConns(Run(t, steps), sid);
  }

  ghost predicate NoMore(s: State, s': State, sid: Sid) {
    && sid in s.sessions && sid in s'.sessions
    && s.sessions[sid].revoked && s'.sessions[sid].revoked
    && s'.sessions[sid].viewers <= s.sessions[sid].viewers
    && s'.sessions[sid].conns.Values <= s.sessions[sid].conns.Values
  }

  /** A revoked session stays revoked, and gains no reservation and no connection. */
  lemma {:induction false} RevokedIsFinal(s: State, sid: Sid, steps: seq<Step>)
    requires sid in s.sessions && s.sessions[sid].revoked
    ensures NoMore(s, Run(s, steps), sid)
    decreases |steps|
  {
    if steps != [] {
      StepKeepsRevoked(s, sid, steps[0]);
      RevokedIsFinal(Do(s, steps[0]), sid, steps[1..]);
    }
  }

  lemma StepKeepsRevoked(s: State, sid: Sid, step: Step)
    requires sid in s.sessions && s.sessions[sid].revoked
    ensures NoMore(s, Do(s, step), sid)
  {
    match step
    case Release(r) => ReleaseKeepsRevoked(s, sid, r);
    case Unlock(h, x) => UnlockKeepsRevoked(s, sid, h, x);
    case Revoke(h, x) =>
    case ExpireSession(x) =>
    case Reserve(h, r, now) => ReserveKeepsRevoked(s, sid, h, r, now);
    case Attach(r, conn, now) => assert DoAttach(s, r, conn, now).sessions[sid] == s.sessions[sid];
    case _ => OtherStepOnlyHandles(s, step);
  }

  lemma ReserveKeepsRevoked(s: State, sid: Sid, h: Hid, r: Rid, now: Time)
    requires sid in s.sessions && s.sessions[sid].revoked
    ensures NoMore(s, DoReserve(s, h, r, now), sid)
  {
    assert DoReserve(s, h, r, now).sessions[sid] == s.sessions[sid];
  }

  lemma ReleaseKeepsRevoked(s: State, sid: Sid, r: Rid)
    requires sid in s.sessions && s.sessions[sid].revoked
    ensures NoMore(s, DoRelease(s, r), sid)
  {
    assert (s.sessions[sid].conns - {r}).Values <= s.sessions[sid].conns.Values;
  }

  lemma UnlockKeepsRevoked(s: State, sid: Sid, h: Hid, x: Sid)
    requires sid in s.sessions && s.sessions[sid].revoked
    ensures NoMore(s, DoUnlock(s, h, x), sid)
  {
    if h in s.handlers && s.handlers[h].Pruning? && s.handlers[h].purpose.Create? {
      BeforeInsertShape(s, h);
    }
  }

  // ---- shutdown ----

  predicate LoginUnderWay(handler: Handler) {
    (handler.Waiting? || handler.Pruning?) && handler.purpose.Create?
  }

  ghost predicate NoLoginUnderWay(s: State) {
    forall h <- s.handlers :: !LoginUnderWay(s.handlers[h])
  }

  /** The lock is held by the handler that prunes; one shutdown at most is on its way to the
      table, and the server has not been ready since it began. */
  ghost predicate LocksOk(s: State) {
    && (forall h <- s.handlers :: s.handlers[h].Pruning? ==> s.mu == Some(h))
    && (forall h <- s.handlers :: s.handlers[h].Closing? ==> !s.ready)
    && (forall g, h | g in s.handlers && h in s.handlers :: s.handlers[g].Closing? && s.handlers[h].Closing? ==> g == h)
  }

  lemma StepKeepsLocks(s: State, step: Step)
    requires LocksOk(s)
    ensures LocksOk(Do(s, step))
  {
    HandlersStep(s, step);
    OneHandlerMoves(s, Do(s, step));
  }

  /** A step moves one handler at most: a new one starts, the one with the lock prunes on or
      lets go, or one finishes; only a ready server starts a shutdown, and it ends that. */
  ghost predicate Moves(s: State, s': State, h: Hid) {
    && h in s'.handlers && s'.handlers == s.handlers[h := s'.handlers[h]]
    && (s'.handlers[h].Pruning? ==> s'.mu == Some(h) || (h in s.handlers && s.handlers[h].Pruning? && s'.mu == s.mu))
    && (s'.mu == s.mu || (s'.mu == Some(h) && s.mu.None?) || (s'.mu.None? && h in s.handlers && s.handlers[h].Pruning?))
    && (s'.handlers[h].Closing? ==> s.ready && !s'.ready)
    && (!s.ready ==> !s'.ready)
  }

  ghost predicate Stays(s: State, s': State) {
    s'.handlers == s.handlers && s'.mu == s.mu && s'.ready == s.ready
  }

  lemma OneHandlerMoves(s: State, s': State)
    requires LocksOk(s) && (Stays(s, s') || exists h :: Moves(s, s', h))
    ensures LocksOk(s')
  {
    if !Stays(s, s') {
      var h :| Moves(s, s', h);
      forall g | g in s'.handlers && g != h ensures g in s.handlers && s'.handlers[g] == s.handlers[g] {
      }
    }
  }

  lemma HandlersStep(s: State, step: Step)
    ensures Stays(s, Do(s, step)) || exists h :: Moves(s, Do(s, step), h)
  {
    match step
    case BeginCreate(h, now, cookie, hash, expiresAt) =>
      BeginMoves(s, h, Waiting(now, Create(cookie, hash, expiresAt)));
    case BeginJanitor(h, now) => BeginMoves(s, h, Waiting(now, Janitor));
    case Lock(h) => LockMoves(s, h);
    case Prune(h, hash) => PruneMoves(s, h, hash);
    case Unlock(h, sid) => UnlockMoves(s, h, sid);
    case Delete(h, hash) => DeleteMoves(s, h, hash);
    case Authenticate(h, hash, now) => AuthenticateMoves(s, h, hash, now);
    case BeginClose(h) => CloseMoves(s, h);
    case CloseTable(h) => CloseMoves(s, h);
    case Revoke(h, sid) => RevokeMoves(s, h, sid);
    case Reserve(h, r, now) => ReserveMoves(s, h, r, now);
    case _ => assert Stays(s, Do(s, step));
  }

  lemma BeginMoves(s: State, h: Hid, handler: Handler)
    requires handler.Waiting?
    ensures Stays(s, DoBegin(s, h, handler)) || Moves(s, DoBegin(s, h, handler), h)
  {
  }

  lemma LockMoves(s: State, h: Hid)
    ensures Stays(s, DoLock(s, h)) || Moves(s, DoLock(s, h), h)
  {
  }

  lemma PruneMoves(s: State, h: Hid, hash: Hash)
    ensures Stays(s, DoPrune(s, h, hash)) || Moves(s, DoPrune(s, h, hash), h)
  {
  }

  lemma DeleteMoves(s: State, h: Hid, hash: Hash)
    ensures Stays(s, DoDelete(s, h, hash)) || Moves(s, DoDelete(s, h, hash), h)
  {
  }

  lemma AuthenticateMoves(s: State, h: Hid, hash: Hash, now: Time)
    ensures Stays(s, DoAuthenticate(s, h, hash, now)) || Moves(s, DoAuthenticate(s, h, hash, now), h)
  {
    if h in s.handlers || s.mu.Some? {
      assert DoAuthenticate(s, h, hash, now) == s;
    } else if hash !in s.table {
      QuietMove(s, DoAuthenticate(s, h, hash, now), h, Finished);
    } else if s.table[hash] in s.sessions && s.sessions[s.table[hash]].Valid(now) {
      QuietMove(s, DoAuthenticate(s, h, hash, now), h, Authenticated(s.table[hash]));
    } else {
      QuietMove(s, DoAuthenticate(s, h, hash, now), h, Revoking({s.table[hash]}));
    }
  }

  /** A handler moves without the lock, and starts no shutdown. */
  lemma QuietMove(s: State, s': State, h: Hid, handler: Handler)
    requires s'.handlers == s.handlers[h := handler] && s'.mu == s.mu && s'.ready == s.ready
    requires !handler.Pruning? && !handler.Closing?
    ensures Moves(s, s', h)
  {
  }

  lemma CloseMoves(s: State, h: Hid)
    ensures Stays(s, DoBeginClose(s, h)) || Moves(s, DoBeginClose(s, h), h)
    ensures Stays(s, DoCloseTable(s, h)) || Moves(s, DoCloseTable(s, h), h)
  {
  }

  lemma RevokeMoves(s: State, h: Hid, sid: Sid)
    ensures Stays(s, DoRevoke(s, h, sid)) || Moves(s, DoRevoke(s, h, sid), h)
  {
  }

  lemma ReserveMoves(s: State, h: Hid, r: Rid, now: Time)
    ensures Stays(s, DoReserve(s, h, r, now)) || Moves(s, DoReserve(s, h, r, now), h)
  {
    if h in s.handlers && s.handlers[h].Authenticated? && r !in s.visits {
      QuietMove(s, DoReserve(s, h, r, now), h, Finished);
    }
  }

  lemma UnlockMoves(s: State, h: Hid, sid: Sid)
    ensures Stays(s, DoUnlock(s, h, sid)) || Moves(s, DoUnlock(s, h, sid), h)
  {
    if h in s.handlers && s.handlers[h].Pruning? && s.handlers[h].todo == {} {
      if s.handlers[h].purpose.Janitor? {
        assert Moves(s, DoUnlock(s, h, sid), h);
      } else if sid !in s.sessions {
        LoginMoves(s, h);
        assert Stays(BeforeInsert(s, h), DoUnlock(s, h, sid));
      }
    }
  }

  lemma LoginMoves(s: State, h: Hid)
    requires h in s.handlers && s.handlers[h].Pruning? && s.handlers[h].purpose.Create?
    ensures Moves(s, BeforeInsert(s, h), h)
  {
    BeforeInsertShape(s, h);
  }

  lemma {:induction false} RunKeepsLocks(s: State, steps: seq<Step>)
    requires LocksOk(s)
    ensures LocksOk(Run(s, steps))
    decreases |steps|
  {
    if steps != [] {
      StepKeepsLocks(s, steps[0]);
      RunKeepsLocks(Do(s, steps[0]), steps[1..]);
    }
  }

  lemma ReachableLocks(s: State)
    requires Reachable(s)
    ensures LocksOk(s)
  {
    var maxSessions: nat, maxViewers: nat, steps: seq<Step> :| s == Run(Init(maxSessions, maxViewers), steps);
    RunKeepsLocks(Init(maxSessions, maxViewers), steps);
  }

  /** When shutdown clears the table, the table stays empty over every run from there exactly
      if no login is past its readiness check at that moment: such a login inserts its
      session late. */
  lemma ShutdownEmptiesTableIff(s: State, closer: Hid)
    requires Reachable(s) && closer in s.handlers && s.handlers[closer].Closing? && s.mu.None? && s.maxSessions > 0
    ensures (forall steps :: Run(DoCloseTable(s, closer), steps).table == map[]) <==> NoLoginUnderWay(s)
  {
    ReachableLocks(s);
    var t := DoCloseTable(s, closer);
    if NoLoginUnderWay(s) {
      forall steps ensures Run(t, steps).table == map[] {
        TableStaysEmpty(t, steps);
      }
    } else {
      var h :| h in s.handlers && LoginUnderWay(s.handlers[h]);
      var sid := FreshId(t.sessions.Keys);
      NothingCloses(s, closer);
      LateLogin(t, h, sid);
    }
  }

  ghost predicate NobodyCloses(s: State) {
    forall h <- s.handlers :: !s.handlers[h].Closing?
  }

  lemma NothingCloses(s: State, closer: Hid)
    requires LocksOk(s) && closer in s.handlers && s.handlers[closer].Closing? && s.mu.None?
    ensures NobodyCloses(DoCloseTable(s, closer)) && !DoCloseTable(s, closer).ready
  {
  }

  /** There is one shutdown only: once it has cleared the table, no run clears it again. */
  lemma {:induction false} NoSecondShutdown(s: State, steps: seq<Step>, h: Hid)
    requires !s.ready && NobodyCloses(s)
    ensures !Run(s, steps).ready && NobodyCloses(Run(s, steps))
    ensures DoCloseTable(Run(s, steps), h) == Run(s, steps)
    decreases |steps|
  {
    if steps != [] {
      StepStartsNoShutdown(s, steps[0]);
      NoSecondShutdown(Do(s, steps[0]), steps[1..], h);
    }
  }

  lemma StepStartsNoShutdown(s: State, step: Step)
    requires !s.ready && NobodyCloses(s)
    ensures !Do(s, step).ready && NobodyCloses(Do(s, step))
  {
    HandlersStep(s, step);
    var s' := Do(s, step);
    if !Stays(s, s') {
      var h :| Moves(s, s', h);
      forall g | g in s'.handlers && g != h ensures g in s.handlers && s'.handlers[g] == s.handlers[g] {
      }
    }
  }

  lemma {:induction false} TableStaysEmpty(s: State, steps: seq<Step>)
    requires !s.ready && s.table == map[] && NoLoginUnderWay(s)
    ensures Run(s, steps).table == map[]
    decreases |steps|
  {
    if steps != [] {
      StepKeepsEmpty(s, steps[0]);
      TableStaysEmpty(Do(s, steps[0]), steps[1..]);
    }
  }

  lemma StepKeepsEmpty(s: State, step: Step)
    requires !s.ready && s.table == map[] && NoLoginUnderWay(s)
    ensures
      var s' := Do(s, step);
      !s'.ready && s'.table == map[] && NoLoginUnderWay(s')
  {
  }

  /** The late login's session is listed, not revoked, and past the only shutdown. */
  lemma LateLogin(s: State, h: Hid, sid: Sid)
    requires s.table == map[] && s.mu.None? && s.maxSessions > 0 && sid !in s.sessions
    requires !s.ready && NobodyCloses(s)
    requires h in s.handlers && s.handlers[h].Waiting? && s.handlers[h].purpose.Create?
    ensures
      var t := Run(s, [Lock(h), Unlock(h, sid)]);
      && t.table == map[s.handlers[h].purpose.hash := sid]
      && sid in t.sessions && !t.sessions[sid].revoked
      && !t.ready && NobodyCloses(t)
  {
    var t := DoLock(s, h);
    assert t.handlers[h].todo == {};
    var u := BeforeInsert(t, h);
    assert u.table == map[];
    assert Run(s, [Lock(h), Unlock(h, sid)]) == Run(t, [Unlock(h, sid)]);
    assert Run(t, [Unlock(h, sid)]) == Run(DoUnlock(t, h, sid), []);
  }

  /** Such a run from the start: a login passes its check, the server shuts down, and the
      login lists its session. */
  lemma LateLoginRun(now: Time)
    ensures
      var s := Run(Init(1, 1), [BeginCreate(0, now, None, 5, now), BeginClose(1), CloseTable(1)]
                               + [Lock(0), Unlock(0, 7)]);
      s.table == map[5 := 7] && 7 in s.sessions && !s.sessions[7].revoked && !s.ready
  {
    var begin := [BeginCreate(0, now, None, 5, now), BeginClose(1), CloseTable(1)];
    RunThree(Init(1, 1), begin[0], begin[1], begin[2]);
    var s := Run(Init(1, 1), begin);
    assert s.table == map[] && s.handlers.Keys == {0, 1};
    LateLogin(s, 0, 7);
    RunAppend(Init(1, 1), begin, [Lock(0), Unlock(0, 7)]);
  }

  /** A login for one session, and another that draws the same hash: the first session is
      neither listed nor revoked nor held any more. */
  lemma RepeatedHashRun(now: Time, expiresAt: Time)
    requires now < expiresAt
    ensures
      var s := Run(Init(2, 1), [BeginCreate(0, now, None, 5, expiresAt), Lock(0), Unlock(0, 7)]
                               + ([BeginCreate(1, now, None, 5, expiresAt), Lock(1)] + [Prune(1, 5), Unlock(1, 8)]));
      7 in s.sessions && !AccountedFor(s, 7)
  {
    var again := [BeginCreate(1, now, None, 5, expiresAt), Lock(1)];
    FirstSession(now, expiresAt);
    var s := OneSession(expiresAt);
    RunTwo(s, again[0], again[1]);
    LocksAgain(now, expiresAt);
    RunTwo(LockedAgain(now, expiresAt, {5}), Prune(1, 5), Unlock(1, 8));
    PrunesNothing(now, expiresAt);
    ReplacesFirst(now, expiresAt);
    RunAppend(s, again, [Prune(1, 5), Unlock(1, 8)]);
    RunAppend(Init(2, 1), [BeginCreate(0, now, None, 5, expiresAt), Lock(0), Unlock(0, 7)],
              again + [Prune(1, 5), Unlock(1, 8)]);
  }

  /** One session, listed under hash 5. */
  function OneSession(expiresAt: Time): State {
    State(2, 1, true, map[5 := 7], None, map[7 := SessionState(expiresAt, false, {}, map[], 0)],
          map[0 := Revoking({})], map[], map[7 := Listed(5)], map[7 := {}])
  }

  lemma FirstSession(now: Time, expiresAt: Time)
    ensures Run(Init(2, 1), [BeginCreate(0, now, None, 5, expiresAt), Lock(0), Unlock(0, 7)])
            == OneSession(expiresAt)
  {
    RunThree(Init(2, 1), BeginCreate(0, now, None, 5, expiresAt), Lock(0), Unlock(0, 7));
    var t := Do(Do(Init(2, 1), BeginCreate(0, now, None, 5, expiresAt)), Lock(0));
    assert t == Init(2, 1).(mu := Some(0), handlers := map[0 := Pruning(now, {}, {}, Create(None, 5, expiresAt))]);
    var u := BeforeInsert(t, 0);
    assert u == Init(2, 1).(handlers := map[0 := Revoking({})]);
    assert DoUnlock(t, 0, 7) == Insert(u, 5, 7, expiresAt);
  }

  /** The second login holds the lock, and has `todo` left to look at. */
  function LockedAgain(now: Time, expiresAt: Time, todo: set<Hash>): State {
    OneSession(expiresAt).(
      mu := Some(1), handlers := map[0 := Revoking({}), 1 := Pruning(now, todo, {}, Create(None, 5, expiresAt))])
  }

  lemma LocksAgain(now: Time, expiresAt: Time)
    ensures Do(Do(OneSession(expiresAt), BeginCreate(1, now, None, 5, expiresAt)), Lock(1))
            == LockedAgain(now, expiresAt, {5})
  {
    var todo: set<Hash> := {5};
    assert OneSession(expiresAt).table.Keys == todo;
  }

  /** It finds the first session valid. */
  lemma PrunesNothing(now: Time, expiresAt: Time)
    requires now < expiresAt
    ensures Do(LockedAgain(now, expiresAt, {5}), Prune(1, 5)) == LockedAgain(now, expiresAt, {})
  {
    var todo: set<Hash> := {5};
    assert todo - {5} == {};
  }

  lemma ReplacesFirst(now: Time, expiresAt: Time)
    ensures var s := Do(LockedAgain(now, expiresAt, {}), Unlock(1, 8));
            7 in s.sessions && !AccountedFor(s, 7)
  {
    var t := LockedAgain(now, expiresAt, {});
    var u := BeforeInsert(t, 1);
    BeforeInsertShape(t, 1);
    var none: set<Sid> := {};
    assert none + none == none;
    assert u.handlers == map[0 := Revoking({}), 1 := Revoking({})];
    assert u.table == map[5 := 7] && |u.table| == 1;
    assert DoUnlock(t, 1, 8) == Insert(u, 5, 8, expiresAt);
  }

  lemma RunTwo(s: State, a: Step, b: Step)
    ensures Run(s, [a, b]) == Do(Do(s, a), b)
  {
    assert [a, b][1..] == [b] && [b][1..] == [];
    assert Run(Do(Do(s, a), b), []) == Do(Do(s, a), b);
  }

  lemma {:induction false} RunAppend(s: State, a: seq<Step>, b: seq<Step>)
    ensures Run(s, a + b) == Run(Run(s, a), b)
    decreases |a|
  {
    if a == [] {
      assert a + b == b;
    } else {
      assert (a + b)[1..] == a[1..] + b;
      RunAppend(Do(s, a[0]), a[1..], b);
    }
  }

  lemma RunThree(s: State, a: Step, b: Step, c: Step)
    ensures Run(s, [a, b, c]) == Do(Do(Do(s, a), b), c)
  {
    assert [a, b, c][1..] == [b, c] && [b, c][1..] == [c] && [c][1..] == [];
    assert Run(Do(Do(Do(s, a), b), c), []) == Do(Do(Do(s, a), b), c);
    assert Run(Do(Do(s, a), b), [c]) == Do(Do(Do(s, a), b), c);
  }

  lemma {:induction false} FreshId(used: set<nat>) returns (n: nat)
    ensures n !in used
    ensures forall m <- used :: m < n
    decreases |used|
  {
    if used == {} {
      n := 0;
    } else {
      var m :| m in used;
      var k := FreshId(used - {m});
      n := if m < k then k else m + 1;
      forall x | x in used ensures x < n {
        if x != m {
          assert x in used - {m};
        }
      }
    }
  }
}
