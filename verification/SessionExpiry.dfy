/** How sessions end by time: what a sweep of the table takes out, and that from its end on a
    session admits nobody. */
module SessionExpiry {
  import opened Wrappers
  import opened RelayRoom
  import opened RelaySession
  import opened SessionSystem
  import opened SessionInvariants
  import opened SessionTheorems
  import opened SessionAnswers

  // ---- the sweep ----

  ghost predicate Dead(s: State, sid: Sid, now: Time) {
    sid in s.sessions && (s.sessions[sid].revoked || s.sessions[sid].expiresAt <= now)
  }

  ghost predicate Unexpired(s: State, sid: Sid, now: Time) {
    sid in s.sessions && now < s.sessions[sid].expiresAt
  }

  /** What a sweep has looked at and left lasts beyond its time; what it took out is dead. */
  ghost predicate Swept(s: State, h: Hid)
    requires h in s.handlers && s.handlers[h].Pruning?
  {
    var w := s.handlers[h];
    && (forall k <- s.table :: k !in w.todo ==> Unexpired(s, s.table[k], w.now))
    && (forall sid <- w.expired :: Dead(s, sid, w.now))
  }

  ghost predicate AllSwept(s: State) {
    forall h <- s.handlers :: s.handlers[h].Pruning? ==> Swept(s, h)
  }

  /** Sessions stay, with their ends, and revoked ones stay revoked. */
  ghost predicate Aged(s: State, s': State, sid: Sid)
    requires sid in s.sessions
  {
    && sid in s'.sessions && s'.sessions[sid].expiresAt == s.sessions[sid].expiresAt
    && (s.sessions[sid].revoked ==> s'.sessions[sid].revoked)
  }

  lemma StepAges(s: State, step: Step, sid: Sid)
    requires sid in s.sessions
    ensures Aged(s, Do(s, step), sid)
  {
    match step
    case Unlock(h, x) => UnlockKeepsSession(s, h, x, sid);
    case Revoke(h, x) => RevokeAges(s, h, x, sid);
    case ExpireSession(x) =>
    case Reserve(h, r, now) => ReserveAges(s, h, r, now, sid);
    case Attach(r, conn, now) =>
    case Release(r) =>
    case _ => OtherStepOnlyHandles(s, step);
  }

  lemma RevokeAges(s: State, h: Hid, x: Sid, sid: Sid)
    requires sid in s.sessions
    ensures Aged(s, DoRevoke(s, h, x), sid) && Shrunk(s, DoRevoke(s, h, x), sid)
  {
  }

  lemma ReserveAges(s: State, h: Hid, r: Rid, now: Time, sid: Sid)
    requires sid in s.sessions
    ensures Aged(s, DoReserve(s, h, r, now), sid)
  {
  }

  lemma StepKeepsSwept(s: State, step: Step)
    requires AllSwept(s) && LocksOk(s) && TableKnown(s)
    ensures AllSwept(Do(s, step))
  {
    forall h | h in Do(s, step).handlers && Do(s, step).handlers[h].Pruning? ensures Swept(Do(s, step), h) {
      match step
      case Lock(g) => LockKeepsSwept(s, g, h);
      case Prune(g, hash) => PruneKeepsSwept(s, g, hash, h);
      case Unlock(g, sid) => UnlockKeepsSwept(s, g, sid, h);
      case _ => OtherStepKeepsSwept(s, step, h);
    }
  }

  lemma LockKeepsSwept(s: State, g: Hid, h: Hid)
    requires AllSwept(s) && LocksOk(s)
    requires h in DoLock(s, g).handlers && DoLock(s, g).handlers[h].Pruning?
    ensures Swept(DoLock(s, g), h)
  {
    if DoLock(s, g) != s {
      assert h == g;
    }
  }

  lemma PruneKeepsSwept(s: State, g: Hid, hash: Hash, h: Hid)
    requires AllSwept(s) && LocksOk(s) && TableKnown(s)
    requires h in DoPrune(s, g, hash).handlers && DoPrune(s, g, hash).handlers[h].Pruning?
    ensures Swept(DoPrune(s, g, hash), h)
  {
    if DoPrune(s, g, hash) != s {
      HandlerAfter(s, Prune(g, hash), h);
      assert h == g && Swept(s, h);
      PruneSweeps(s, h, hash);
    }
  }

  /** One more entry looked at. */
  lemma PruneSweeps(s: State, h: Hid, hash: Hash)
    requires h in s.handlers && s.handlers[h].Pruning? && hash in s.handlers[h].todo && Swept(s, h) && TableKnown(s)
    ensures h in DoPrune(s, h, hash).handlers && DoPrune(s, h, hash).handlers[h].Pruning?
    ensures Swept(DoPrune(s, h, hash), h)
  {
    var w, s' := s.handlers[h], DoPrune(s, h, hash);
    assert s'.sessions == s.sessions;
    forall k | k in s'.table && k !in s'.handlers[h].todo ensures Unexpired(s', s'.table[k], w.now) {
      if k != hash {
        assert Unexpired(s, s.table[k], w.now);
      }
    }
    forall sid | sid in s'.handlers[h].expired ensures Dead(s', sid, w.now) {
      if sid in w.expired {
        assert Dead(s, sid, w.now);
      }
    }
  }

  lemma UnlockKeepsSwept(s: State, g: Hid, sid: Sid, h: Hid)
    requires AllSwept(s) && LocksOk(s)
    requires h in DoUnlock(s, g, sid).handlers && DoUnlock(s, g, sid).handlers[h].Pruning?
    ensures Swept(DoUnlock(s, g, sid), h)
  {
    UnlockLetsGo(s, g, sid, h);
  }

  /** After its last locked step a handler no longer sweeps, and nobody else did. */
  lemma UnlockLetsGo(s: State, g: Hid, sid: Sid, h: Hid)
    requires LocksOk(s) && h in DoUnlock(s, g, sid).handlers && DoUnlock(s, g, sid).handlers[h].Pruning?
    ensures DoUnlock(s, g, sid) == s
  {
    UnlockFollows(s, g, sid, h);
    if g == h {
      UnlockedIsRevoking(s, g, sid);
    } else {
      assert g in s.handlers ==> !s.handlers[g].Pruning?;
    }
  }

  /** Any other step keeps what a sweep knows: while it runs nobody else touches the table. */
  lemma OtherStepKeepsSwept(s: State, step: Step, h: Hid)
    requires AllSwept(s) && !step.Lock? && !step.Prune? && !step.Unlock?
    requires h in Do(s, step).handlers && Do(s, step).handlers[h].Pruning?
    ensures Swept(Do(s, step), h)
  {
    HandlerAfter(s, step, h);
    OtherStepShrinks(s, step);
    SweptStays(s, Do(s, step), step, h);
  }

  lemma SweptStays(s: State, s': State, step: Step, h: Hid)
    requires s' == Do(s, step) && Shrinks(s, s')
    requires h in s.handlers && s.handlers[h].Pruning? && Swept(s, h)
    requires h in s'.handlers && s'.handlers[h] == s.handlers[h]
    ensures Swept(s', h)
  {
    var w := s.handlers[h];
    forall k | k in s'.table && k !in w.todo ensures Unexpired(s', s'.table[k], w.now) {
      assert Unexpired(s, s.table[k], w.now);
      StepAges(s, step, s.table[k]);
    }
    forall sid | sid in w.expired ensures Dead(s', sid, w.now) {
      assert Dead(s, sid, w.now);
      StepAges(s, step, sid);
    }
  }

  lemma {:induction false} RunKeepsSwept(s: State, steps: seq<Step>)
    requires AllSwept(s) && LocksOk(s) && SessionsInv(s)
    ensures AllSwept(Run(s, steps))
    decreases |steps|
  {
    if steps != [] {
      KnowsTable(s);
      StepKeepsSwept(s, steps[0]);
      StepKeepsLocks(s, steps[0]);
      StepKeepsSessions(s, steps[0]);
      RunKeepsSwept(Do(s, steps[0]), steps[1..]);
    }
  }

  lemma KnowsTable(s: State)
    requires SessionsInv(s)
    ensures TableKnown(s)
  {
  }

  lemma ReachableSwept(s: State)
    requires Reachable(s)
    ensures AllSwept(s)
  {
    var maxSessions: nat, maxViewers: nat, steps: seq<Step> :| s == Run(Init(maxSessions, maxViewers), steps);
    RunKeepsSwept(Init(maxSessions, maxViewers), steps);
  }

  /** When a sweep has looked at every entry, nothing expired by its time is listed, and all it
      took out is expired or revoked. */
  lemma SweepIsExact(s: State, h: Hid)
    requires Reachable(s) && h in s.handlers && s.handlers[h].Pruning? && s.handlers[h].todo == {}
    ensures forall k <- s.table :: s.table[k] in s.sessions && s.handlers[h].now < s.sessions[s.table[k]].expiresAt
    ensures forall sid <- s.handlers[h].expired ::
              sid in s.sessions && (s.sessions[sid].revoked || s.sessions[sid].expiresAt <= s.handlers[h].now)
  {
    ReachableSwept(s);
    assert Swept(s, h);
    forall k | k in s.table
      ensures s.table[k] in s.sessions && s.handlers[h].now < s.sessions[s.table[k]].expiresAt
    {
      assert Unexpired(s, s.table[k], s.handlers[h].now);
    }
    forall sid | sid in s.handlers[h].expired
      ensures sid in s.sessions && (s.sessions[sid].revoked || s.sessions[sid].expiresAt <= s.handlers[h].now)
    {
      assert Dead(s, sid, s.handlers[h].now);
    }
  }

  /** A look at an entry takes it out exactly if its session is expired or revoked then. */
  lemma PruneTakesOutIff(s: State, h: Hid, hash: Hash)
    requires Reachable(s) && h in s.handlers && s.handlers[h].Pruning?
    requires hash in s.handlers[h].todo && hash in s.table
    ensures
      var w, sid := s.handlers[h], s.table[hash];
      && sid in s.sessions
      && Do(s, Prune(h, hash)).table
         == if s.sessions[sid].revoked || s.sessions[sid].expiresAt <= w.now then s.table - {hash} else s.table
  {
    ReachableKnown(s);
  }

  // ---- the end of a session ----

  /** The step, if it asks anything of a session, asks at `end` or later. */
  predicate AsksFrom(step: Step, end: Time) {
    match step
    case Authenticate(_, _, now) => end <= now
    case Reserve(_, _, now) => end <= now
    case Attach(_, _, now) => end <= now
    case _ => true
  }

  ghost predicate Shrunk(s: State, s': State, sid: Sid) {
    && sid in s.sessions && sid in s'.sessions
    && s'.sessions[sid].expiresAt == s.sessions[sid].expiresAt
    && s'.sessions[sid].viewers <= s.sessions[sid].viewers
    && s'.sessions[sid].conns.Items <= s.sessions[sid].conns.Items
  }

  /** Nobody has been let in, has reserved or has attached. */
  ghost predicate AdmittedNobody(s: State, s': State, sid: Sid) {
    && Shrunk(s, s', sid)
    && (forall h <- s'.handlers :: s'.handlers[h] == Authenticated(sid) ==>
          h in s.handlers && s.handlers[h] == Authenticated(sid))
  }

  /** From its end on a session admits nobody, over every run. */
  lemma {:induction false} ExpiredIsFinal(s: State, sid: Sid, steps: seq<Step>)
    requires sid in s.sessions && forall step <- steps :: AsksFrom(step, s.sessions[sid].expiresAt)
    ensures AdmittedNobody(s, Run(s, steps), sid)
    decreases |steps|
  {
    if steps != [] {
      assert steps[0] in steps;
      StepAdmitsNobody(s, sid, steps[0]);
      ExpiredIsFinal(Do(s, steps[0]), sid, steps[1..]);
    }
  }

  lemma StepAdmitsNobody(s: State, sid: Sid, step: Step)
    requires sid in s.sessions && AsksFrom(step, s.sessions[sid].expiresAt)
    ensures AdmittedNobody(s, Do(s, step), sid)
  {
    var s' := Do(s, step);
    StepReservesNothing(s, sid, step);
    forall h | h in s'.handlers && s'.handlers[h] == Authenticated(sid)
      ensures h in s.handlers && s.handlers[h] == Authenticated(sid)
    {
      HandlerAfter(s, step, h);
    }
  }

  lemma StepReservesNothing(s: State, sid: Sid, step: Step)
    requires sid in s.sessions && AsksFrom(step, s.sessions[sid].expiresAt)
    ensures Shrunk(s, Do(s, step), sid)
  {
    match step
    case Unlock(h, x) => UnlockKeepsSession(s, h, x, sid);
    case Revoke(h, x) => RevokeAges(s, h, x, sid);
    case ExpireSession(x) => TimerShrinks(s, x, sid);
    case Reserve(h, r, now) => ExpiredReservesNothing(s, sid, h, r, now);
    case Attach(r, conn, now) => ExpiredAttachesNothing(s, sid, r, conn, now);
    case Release(r) => ReleaseShrinks(s, sid, r);
    case _ => OtherStepOnlyHandles(s, step);
  }

  lemma ExpiredReservesNothing(s: State, sid: Sid, h: Hid, r: Rid, now: Time)
    requires sid in s.sessions && s.sessions[sid].expiresAt <= now
    ensures sid in DoReserve(s, h, r, now).sessions && DoReserve(s, h, r, now).sessions[sid] == s.sessions[sid]
  {
  }

  lemma ExpiredAttachesNothing(s: State, sid: Sid, r: Rid, conn: Conn, now: Time)
    requires sid in s.sessions && s.sessions[sid].expiresAt <= now
    ensures sid in DoAttach(s, r, conn, now).sessions && DoAttach(s, r, conn, now).sessions[sid] == s.sessions[sid]
  {
  }

  lemma TimerShrinks(s: State, x: Sid, sid: Sid)
    requires sid in s.sessions
    ensures Shrunk(s, DoExpireSession(s, x), sid)
  {
  }

  lemma ReleaseShrinks(s: State, sid: Sid, r: Rid)
    requires sid in s.sessions
    ensures Shrunk(s, DoRelease(s, r), sid)
  {
    assert (s.sessions[sid].conns - {r}).Items <= s.sessions[sid].conns.Items;
  }

  // ---- before the end ----

  /** A handler that was let in reserves exactly if the session is unrevoked, before its end,
      and has a place; it attaches exactly if it is unrevoked and before its end. */
  lemma ReservesIff(s: State, h: Hid, r: Rid, now: Time)
    requires Reachable(s) && h in s.handlers && s.handlers[h].Authenticated? && r !in s.visits
    ensures
      var sid, s' := s.handlers[h].sid, Do(s, Reserve(h, r, now));
      && sid in s.sessions && sid in s'.sessions
      && (r in s'.sessions[sid].viewers
          <==> !s.sessions[sid].revoked && now < s.sessions[sid].expiresAt && |s.sessions[sid].viewers| < s.maxViewers)
  {
    ReachableKnown(s);
    HandlerKnows(s, h);
    NewIsNoViewer(s, s.handlers[h].sid, r);
    ReserveAnswers(s, h, r, now);
  }

  lemma HandlerKnows(s: State, h: Hid)
    requires Reachable(s) && h in s.handlers && s.handlers[h].Authenticated?
    ensures s.handlers[h].sid in s.sessions
  {
    ReachableSessions(s);
  }

  lemma NewIsNoViewer(s: State, sid: Sid, r: Rid)
    requires Reachable(s) && sid in s.sessions && r !in s.visits
    ensures r !in s.sessions[sid].viewers
  {
    ReachableSessions(s);
    assert SessionOk(s, sid);
  }

  lemma ReserveAnswers(s: State, h: Hid, r: Rid, now: Time)
    requires h in s.handlers && s.handlers[h].Authenticated? && r !in s.visits
    requires s.handlers[h].sid in s.sessions && r !in s.sessions[s.handlers[h].sid].viewers
    ensures
      var sid, s' := s.handlers[h].sid, DoReserve(s, h, r, now);
      && sid in s'.sessions
      && (r in s'.sessions[sid].viewers
          <==> !s.sessions[sid].revoked && now < s.sessions[sid].expiresAt && |s.sessions[sid].viewers| < s.maxViewers)
  {
  }

  lemma AttachesIff(s: State, r: Rid, conn: Conn, now: Time)
    requires Reachable(s) && r in s.visits && s.visits[r].present
    ensures
      var sid, s' := s.visits[r].sid, Do(s, Attach(r, conn, now));
      && sid in s.sessions && sid in s'.sessions
      && s'.sessions[sid].conns
         == if !s.sessions[sid].revoked && now < s.sessions[sid].expiresAt then s.sessions[sid].conns[r := conn]
            else s.sessions[sid].conns
  {
    PresentIsViewer(s, r);
    AttachAnswers(s, r, conn, now);
  }

  lemma PresentIsViewer(s: State, r: Rid)
    requires Reachable(s) && r in s.visits && s.visits[r].present
    ensures s.visits[r].sid in s.sessions && r in s.sessions[s.visits[r].sid].viewers
  {
    ReachableSessions(s);
    assert SessionOk(s, s.visits[r].sid);
  }

  lemma AttachAnswers(s: State, r: Rid, conn: Conn, now: Time)
    requires r in s.visits && s.visits[r].present
    requires s.visits[r].sid in s.sessions && r in s.sessions[s.visits[r].sid].viewers
    ensures
      var sid, s' := s.visits[r].sid, DoAttach(s, r, conn, now);
      && sid in s'.sessions
      && s'.sessions[sid].conns
         == if !s.sessions[sid].revoked && now < s.sessions[sid].expiresAt then s.sessions[sid].conns[r := conn]
            else s.sessions[sid].conns
  {
  }
}
