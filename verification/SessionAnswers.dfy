/** What the session table answers, and when: whom an authentication lets in, what a login
    lists, and that a session which is logged out, replaced, swept or expired is over. */
module SessionAnswers {
  import opened Wrappers
  import opened RelayRoom
  import opened RelaySession
  import opened SessionSystem
  import opened SessionInvariants
  import opened SessionTheorems

  /** Reached by a run whose logins draw fresh hashes. */
  ghost predicate FreshlyReached(s: State) {
    exists maxSessions: nat, maxViewers: nat, steps: seq<Step> ::
      FreshRun(Init(maxSessions, maxViewers), steps) && s == Run(Init(maxSessions, maxViewers), steps)
  }

  ghost predicate TableKnown(s: State) {
    forall k <- s.table :: s.table[k] in s.sessions
  }

  lemma FreshlyReachedOk(s: State)
    requires FreshlyReached(s)
    ensures ListedOk(s) && TableKnown(s)
  {
    var maxSessions: nat, maxViewers: nat, steps: seq<Step> :|
      FreshRun(Init(maxSessions, maxViewers), steps) && s == Run(Init(maxSessions, maxViewers), steps);
    RunKeepsTable(Init(maxSessions, maxViewers), steps);
    RunKeepsSessions(Init(maxSessions, maxViewers), steps);
  }

  lemma ReachableKnown(s: State)
    requires Reachable(s)
    ensures TableKnown(s)
  {
    ReachableSessions(s);
  }

  /** A request with the token that `hash` is of, at `now`, is answered with the session. */
  ghost predicate LetsIn(s: State, g: Hid, hash: Hash, now: Time, sid: Sid) {
    var s' := Do(s, Authenticate(g, hash, now));
    g !in s.handlers && g in s'.handlers && s'.handlers[g] == Authenticated(sid)
  }

  ghost predicate Unlisted(s: State, sid: Sid) {
    forall k <- s.table :: s.table[k] != sid
  }

  /** Whom an authentication lets in: exactly the session listed under the hash, unrevoked and
      before its end. */
  lemma LetsInIff(s: State, g: Hid, hash: Hash, now: Time, sid: Sid)
    requires TableKnown(s) && g !in s.handlers && s.mu.None?
    ensures LetsIn(s, g, hash, now, sid)
            <==> hash in s.table && s.table[hash] == sid
                 && !s.sessions[sid].revoked && now < s.sessions[sid].expiresAt
  {
    if hash in s.table {
      assert s.table[hash] in s.sessions;
      NotValidIsTakenOut(s, g, hash, now);
    }
  }

  lemma NotValidIsTakenOut(s: State, g: Hid, hash: Hash, now: Time)
    requires g !in s.handlers && s.mu.None? && hash in s.table && s.table[hash] in s.sessions
    ensures var s' := Do(s, Authenticate(g, hash, now));
            g in s'.handlers
            && s'.handlers[g] == if s.sessions[s.table[hash]].Valid(now) then Authenticated(s.table[hash])
                                 else Revoking({s.table[hash]})
  {
  }

  lemma LetInIsListed(s: State, g: Hid, hash: Hash, now: Time, sid: Sid)
    requires LetsIn(s, g, hash, now, sid)
    ensures hash in s.table && s.table[hash] == sid
  {
    HandlerAfter(s, Authenticate(g, hash, now), g);
  }

  lemma UnlistedIsRefused(s: State, sid: Sid)
    requires Unlisted(s, sid)
    ensures forall g, hash, now :: !LetsIn(s, g, hash, now, sid)
  {
    forall g, hash, now ensures !LetsIn(s, g, hash, now, sid) {
      if LetsIn(s, g, hash, now, sid) {
        LetInIsListed(s, g, hash, now, sid);
      }
    }
  }

  // ---- what a step does to a handler ----

  /** What `step` makes of the handler `h`. */
  ghost predicate Becomes(s: State, step: Step, h: Hid, next: Handler) {
    match step
    case BeginCreate(g, now, cookie, hash, end) =>
      h == g && h !in s.handlers && next == Waiting(now, Create(cookie, hash, end))
    case BeginJanitor(g, now) => h == g && h !in s.handlers && next == Waiting(now, Janitor)
    case Lock(g) =>
      h == g && h in s.handlers && s.handlers[h].Waiting? && next.Pruning? && next.purpose == s.handlers[h].purpose
    case Prune(g, _) =>
      h == g && h in s.handlers && s.handlers[h].Pruning? && next.Pruning? && next.purpose == s.handlers[h].purpose
    case Unlock(g, _) => h == g && h in s.handlers && s.handlers[h].Pruning? && next.Revoking?
    case Delete(g, _) => h == g && h !in s.handlers && next.Revoking?
    case Authenticate(g, hash, now) =>
      && h == g && h !in s.handlers && (next.Finished? || next.Revoking? || next.Authenticated?)
      && (next.Authenticated? ==>
            && hash in s.table && next.sid == s.table[hash]
            && next.sid in s.sessions && s.sessions[next.sid].Valid(now))
    case BeginClose(g) => h == g && h !in s.handlers && next.Closing?
    case CloseTable(g) => h == g && h in s.handlers && s.handlers[h].Closing? && next.Revoking?
    case Revoke(g, sid) =>
      h == g && h in s.handlers && s.handlers[h].Revoking? && next == Revoking(s.handlers[h].waiting - {sid})
    case Reserve(g, _, _) => h == g && h in s.handlers && s.handlers[h].Authenticated? && next.Finished?
    case _ => false
  }

  /** A handler is as it was, or what the step makes of it; none goes away. */
  ghost predicate Follows(s: State, s': State, step: Step, h: Hid) {
    && (h in s'.handlers ==>
          (h in s.handlers && s'.handlers[h] == s.handlers[h]) || Becomes(s, step, h, s'.handlers[h]))
    && (h in s.handlers ==> h in s'.handlers)
  }

  lemma HandlerAfter(s: State, step: Step, h: Hid)
    ensures Follows(s, Do(s, step), step, h)
  {
    match step
    case Prune(g, hash) => PruneFollows(s, g, hash, h);
    case Unlock(g, sid) => UnlockFollows(s, g, sid, h);
    case Delete(g, hash) => DeleteFollows(s, g, hash, h);
    case Authenticate(g, hash, now) => AuthenticateFollows(s, g, hash, now, h);
    case CloseTable(g) => CloseTableFollows(s, g, h);
    case Revoke(g, sid) => RevokeFollows(s, g, sid, h);
    case Reserve(g, r, now) => ReserveFollows(s, g, r, now, h);
    case _ => OtherFollows(s, step, h);
  }

  lemma OtherFollows(s: State, step: Step, h: Hid)
    requires step.BeginCreate? || step.BeginJanitor? || step.Lock? || step.BeginClose? || step.ExpireSession?
             || step.Attach? || step.Release?
    ensures Follows(s, Do(s, step), step, h)
  {
  }

  lemma PruneFollows(s: State, g: Hid, hash: Hash, h: Hid)
    ensures Follows(s, DoPrune(s, g, hash), Prune(g, hash), h)
  {
  }

  lemma UnlockFollows(s: State, g: Hid, sid: Sid, h: Hid)
    ensures Follows(s, DoUnlock(s, g, sid), Unlock(g, sid), h)
  {
    UnlockMoves(s, g, sid);
    UnlockedIsRevoking(s, g, sid);
  }

  lemma UnlockedIsRevoking(s: State, g: Hid, sid: Sid)
    ensures
      var s' := DoUnlock(s, g, sid);
      s' == s || (g in s.handlers && s.handlers[g].Pruning? && g in s'.handlers && s'.handlers[g].Revoking?)
  {
    if LoginDone(s, g) {
      BeforeInsertShape(s, g);
    }
  }

  lemma DeleteFollows(s: State, g: Hid, hash: Hash, h: Hid)
    ensures Follows(s, DoDelete(s, g, hash), Delete(g, hash), h)
  {
  }

  lemma AuthenticateFollows(s: State, g: Hid, hash: Hash, now: Time, h: Hid)
    ensures Follows(s, DoAuthenticate(s, g, hash, now), Authenticate(g, hash, now), h)
  {
    AuthenticateMoves(s, g, hash, now);
    AuthenticateMakes(s, g, hash, now);
  }

  lemma AuthenticateMakes(s: State, g: Hid, hash: Hash, now: Time)
    ensures
      var s' := DoAuthenticate(s, g, hash, now);
      s' == s || (g in s'.handlers && Becomes(s, Authenticate(g, hash, now), g, s'.handlers[g]))
  {
    if g in s.handlers || s.mu.Some? {
      assert DoAuthenticate(s, g, hash, now) == s;
    } else if hash in s.table && s.table[hash] in s.sessions {
      NotValidIsTakenOut(s, g, hash, now);
    } else {
      UnknownIsRefused(s, g, hash, now);
    }
  }

  lemma UnknownIsRefused(s: State, g: Hid, hash: Hash, now: Time)
    requires g !in s.handlers && s.mu.None? && !(hash in s.table && s.table[hash] in s.sessions)
    ensures var s' := DoAuthenticate(s, g, hash, now);
            g in s'.handlers && (s'.handlers[g].Finished? || s'.handlers[g].Revoking?)
  {
  }

  lemma CloseTableFollows(s: State, g: Hid, h: Hid)
    ensures Follows(s, DoCloseTable(s, g), CloseTable(g), h)
  {
  }

  lemma RevokeFollows(s: State, g: Hid, sid: Sid, h: Hid)
    ensures Follows(s, DoRevoke(s, g, sid), Revoke(g, sid), h)
  {
  }

  lemma ReserveFollows(s: State, g: Hid, r: Rid, now: Time, h: Hid)
    ensures Follows(s, DoReserve(s, g, r, now), Reserve(g, r, now), h)
  {
  }

  // ---- a session that is over ----

  /** Out of the table, and revoked or about to be by `h`. */
  ghost predicate Ending(s: State, h: Hid, sid: Sid) {
    && sid in s.sessions && Unlisted(s, sid)
    && (s.sessions[sid].revoked || HeldAt(s, h, sid))
  }

  ghost predicate HeldAt(s: State, h: Hid, sid: Sid) {
    h in s.handlers && s.handlers[h].Revoking? && sid in s.handlers[h].waiting
  }

  /** The entries left in the table are entries it had. */
  ghost predicate Shrinks(s: State, s': State) {
    forall k <- s'.table :: k in s.table && s'.table[k] == s.table[k]
  }

  lemma PruneShrinks(s: State, h: Hid, hash: Hash)
    ensures Shrinks(s, DoPrune(s, h, hash))
  {
  }

  lemma DeleteShrinks(s: State, h: Hid, hash: Hash)
    ensures Shrinks(s, DoDelete(s, h, hash))
  {
  }

  lemma AuthenticateShrinks(s: State, h: Hid, hash: Hash, now: Time)
    ensures Shrinks(s, DoAuthenticate(s, h, hash, now))
  {
  }

  /** Only a login's last locked step lists a session. */
  lemma OtherStepShrinks(s: State, step: Step)
    requires !step.Unlock?
    ensures Shrinks(s, Do(s, step))
  {
    match step
    case Prune(h, hash) => PruneShrinks(s, h, hash);
    case Delete(h, hash) => DeleteShrinks(s, h, hash);
    case Authenticate(h, hash, now) => AuthenticateShrinks(s, h, hash, now);
    case Revoke(h, sid) => RevokeShrinks(s, h, sid);
    case CloseTable(h) =>
    case Reserve(h, r, now) =>
    case _ =>
  }

  lemma RevokeShrinks(s: State, h: Hid, sid: Sid)
    ensures Shrinks(s, DoRevoke(s, h, sid))
  {
  }

  /** The table without the entry that a login's cookie names. */
  function WithoutCookie(table: map<Hash, Sid>, cookie: Option<Hash>): map<Hash, Sid> {
    if cookie.Some? then table - {cookie.value} else table
  }

  predicate LoginDone(s: State, h: Hid) {
    h in s.handlers && s.handlers[h].Pruning? && s.handlers[h].todo == {} && s.handlers[h].purpose.Create?
  }

  lemma BeforeInsertTable(s: State, h: Hid)
    requires LoginDone(s, h)
    ensures BeforeInsert(s, h).table == WithoutCookie(s.table, s.handlers[h].purpose.cookie)
  {
    var cookie := s.handlers[h].purpose.cookie;
    if cookie.Some? && cookie.value !in s.table {
      assert s.table - {cookie.value} == s.table;
    }
  }

  /** What a login's last locked step leaves in the table. */
  lemma UnlockTable(s: State, h: Hid, sid: Sid)
    requires LoginDone(s, h) && sid !in s.sessions
    ensures
      var p, t := s.handlers[h].purpose, DoUnlock(s, h, sid);
      var kept := WithoutCookie(s.table, p.cookie);
      && t.mu.None?
      && t.table == (if |kept| < s.maxSessions then kept[p.hash := sid] else kept)
      && t.sessions == (if |kept| < s.maxSessions then
                          s.sessions[sid := SessionState(p.expiresAt, false, {}, map[], 0)]
                        else s.sessions)
  {
    BeforeInsertTable(s, h);
    BeforeInsertShape(s, h);
  }

  lemma OtherUnlockKeepsTable(s: State, h: Hid, sid: Sid)
    requires !LoginDone(s, h) || sid in s.sessions
    ensures DoUnlock(s, h, sid).table == s.table && DoUnlock(s, h, sid).sessions == s.sessions
  {
  }

  lemma StepKeepsUnlisted(s: State, step: Step, sid: Sid)
    requires sid in s.sessions && Unlisted(s, sid)
    ensures Unlisted(Do(s, step), sid)
  {
    if step.Unlock? {
      if LoginDone(s, step.h) && step.sid !in s.sessions {
        UnlockTable(s, step.h, step.sid);
      } else {
        OtherUnlockKeepsTable(s, step.h, step.sid);
      }
    } else {
      OtherStepShrinks(s, step);
    }
  }

  lemma StepKeepsEnding(s: State, step: Step, h: Hid, sid: Sid)
    requires Ending(s, h, sid)
    ensures Ending(Do(s, step), h, sid)
  {
    StepKeepsUnlisted(s, step, sid);
    StepKeepsSession(s, step, sid);
    if s.sessions[sid].revoked {
      StepKeepsRevoked(s, sid, step);
    } else {
      StepKeepsHeld(s, step, h, sid);
    }
  }

  lemma StepKeepsHeld(s: State, step: Step, h: Hid, sid: Sid)
    requires sid in s.sessions && HeldAt(s, h, sid)
    ensures var s' := Do(s, step);
            sid in s'.sessions && (s'.sessions[sid].revoked || HeldAt(s', h, sid))
  {
    StepKeepsSession(s, step, sid);
    if step.Revoke? {
      RevokeKeepsHeld(s, step.h, step.sid, h, sid);
    } else {
      HandlerAfter(s, step, h);
    }
  }

  lemma StepKeepsSession(s: State, step: Step, sid: Sid)
    requires sid in s.sessions
    ensures sid in Do(s, step).sessions
  {
    match step
    case Unlock(h, x) => UnlockKeepsSession(s, h, x, sid);
    case Revoke(h, x) =>
    case ExpireSession(x) =>
    case Reserve(h, r, now) =>
    case Attach(r, conn, now) =>
    case Release(r) =>
    case _ => OtherStepOnlyHandles(s, step);
  }

  lemma UnlockKeepsSession(s: State, h: Hid, x: Sid, sid: Sid)
    requires sid in s.sessions
    ensures sid in DoUnlock(s, h, x).sessions && DoUnlock(s, h, x).sessions[sid] == s.sessions[sid]
  {
    if LoginDone(s, h) && x !in s.sessions {
      UnlockTable(s, h, x);
    } else {
      OtherUnlockKeepsTable(s, h, x);
    }
  }

  lemma RevokeKeepsHeld(s: State, g: Hid, x: Sid, h: Hid, sid: Sid)
    requires sid in s.sessions && HeldAt(s, h, sid)
    ensures var s' := DoRevoke(s, g, x);
            sid in s'.sessions && (s'.sessions[sid].revoked || HeldAt(s', h, sid))
    ensures DoRevoke(s, h, sid).sessions[sid].revoked
  {
  }

  lemma {:induction false} RunKeepsEnding(s: State, steps: seq<Step>, h: Hid, sid: Sid)
    requires Ending(s, h, sid)
    ensures Ending(Run(s, steps), h, sid)
    decreases |steps|
  {
    if steps != [] {
      StepKeepsEnding(s, steps[0], h, sid);
      RunKeepsEnding(Do(s, steps[0]), steps[1..], h, sid);
    }
  }

  /** Over every run from `t` the session is let in by nobody, and its handler has revoked it
      or does so with its next step. */
  ghost predicate OverFrom(t: State, h: Hid, sid: Sid) {
    forall steps: seq<Step> ::
      var s := Run(t, steps);
      && sid in s.sessions && (forall g, hash, now :: !LetsIn(s, g, hash, now, sid))
      && (s.sessions[sid].revoked || (h in s.handlers && sid in s.handlers[h].Held()))
      && (Do(s, Revoke(h, sid)).sessions[sid].revoked)
  }

  lemma EndingIsOver(t: State, h: Hid, sid: Sid)
    requires Ending(t, h, sid)
    ensures OverFrom(t, h, sid)
  {
    forall steps: seq<Step>
      ensures
        var s := Run(t, steps);
        && sid in s.sessions && (forall g, hash, now :: !LetsIn(s, g, hash, now, sid))
        && (s.sessions[sid].revoked || (h in s.handlers && sid in s.handlers[h].Held()))
        && Do(s, Revoke(h, sid)).sessions[sid].revoked
    {
      var s := Run(t, steps);
      RunKeepsEnding(t, steps, h, sid);
      UnlistedIsRefused(s, sid);
      if !s.sessions[sid].revoked {
        RevokeKeepsHeld(s, h, sid, h, sid);
      } else {
        StepKeepsRevoked(s, sid, Revoke(h, sid));
      }
    }
  }

  // ---- logging out ----

  lemma OnlyEntry(s: State, hash: Hash)
    requires ListedOk(s) && TableKnown(s) && hash in s.table
    ensures s.table[hash] in s.sessions
    ensures forall k <- s.table :: s.table[k] == s.table[hash] ==> k == hash
  {
  }

  lemma DeleteEnds(s: State, h: Hid, hash: Hash)
    requires h !in s.handlers && s.mu.None? && hash in s.table
    ensures Do(s, Delete(h, hash)).table == s.table - {hash}
    ensures Do(s, Delete(h, hash)).handlers == s.handlers[h := Revoking({s.table[hash]})]
    ensures Do(s, Delete(h, hash)).sessions == s.sessions
  {
  }

  /** A logout takes exactly its own entry out of the table and ends the session that was
      listed there, which no other entry names. */
  lemma LogoutEnds(s: State, h: Hid, hash: Hash)
    requires FreshlyReached(s)
    requires h !in s.handlers && s.mu.None? && hash in s.table
    ensures Do(s, Delete(h, hash)).table == s.table - {hash}
    ensures Do(s, Delete(h, hash)).handlers == s.handlers[h := Revoking({s.table[hash]})]
    ensures OverFrom(Do(s, Delete(h, hash)), h, s.table[hash])
  {
    FreshlyReachedOk(s);
    OnlyEntry(s, hash);
    DeleteEnds(s, h, hash);
    LogoutIsEnding(s, Do(s, Delete(h, hash)), h, hash);
    EndingIsOver(Do(s, Delete(h, hash)), h, s.table[hash]);
  }

  lemma LogoutIsEnding(s: State, t: State, h: Hid, hash: Hash)
    requires hash in s.table && s.table[hash] in s.sessions && t.sessions == s.sessions
    requires forall k <- s.table :: s.table[k] == s.table[hash] ==> k == hash
    requires t.table == s.table - {hash} && t.handlers == s.handlers[h := Revoking({s.table[hash]})]
    ensures Ending(t, h, s.table[hash])
  {
  }

  /** A request that finds its session expired or revoked takes exactly its entry out of the
      table and ends the session. */
  lemma RefusalEnds(s: State, g: Hid, hash: Hash, now: Time)
    requires FreshlyReached(s) && g !in s.handlers && s.mu.None? && hash in s.table
    requires s.table[hash] in s.sessions && !s.sessions[s.table[hash]].Valid(now)
    ensures Do(s, Authenticate(g, hash, now)).table == s.table - {hash}
    ensures OverFrom(Do(s, Authenticate(g, hash, now)), g, s.table[hash])
  {
    FreshlyReachedOk(s);
    OnlyEntry(s, hash);
    RefusalTakesOut(s, g, hash, now);
    LogoutIsEnding(s, Do(s, Authenticate(g, hash, now)), g, hash);
    EndingIsOver(Do(s, Authenticate(g, hash, now)), g, s.table[hash]);
  }

  lemma RefusalTakesOut(s: State, g: Hid, hash: Hash, now: Time)
    requires g !in s.handlers && s.mu.None? && hash in s.table
    requires s.table[hash] in s.sessions && !s.sessions[s.table[hash]].Valid(now)
    ensures
      var t := DoAuthenticate(s, g, hash, now);
      t.table == s.table - {hash} && t.handlers == s.handlers[g := Revoking({s.table[hash]})] && t.sessions == s.sessions
  {
  }

  /** A shutdown ends every session that was listed. */
  lemma ShutdownEnds(s: State, h: Hid, hash: Hash)
    requires Reachable(s) && h in s.handlers && s.handlers[h].Closing? && s.mu.None? && hash in s.table
    ensures Do(s, CloseTable(h)).table == map[]
    ensures OverFrom(Do(s, CloseTable(h)), h, s.table[hash])
  {
    ReachableKnown(s);
    ShutdownIsEnding(s, h, hash);
    EndingIsOver(Do(s, CloseTable(h)), h, s.table[hash]);
  }

  lemma ShutdownIsEnding(s: State, h: Hid, hash: Hash)
    requires TableKnown(s) && h in s.handlers && s.handlers[h].Closing? && s.mu.None? && hash in s.table
    ensures DoCloseTable(s, h).table == map[] && Ending(DoCloseTable(s, h), h, s.table[hash])
  {
    assert s.table[hash] in s.table.Values;
  }

  predicate LoginFor(handler: Handler, hash: Hash) {
    LoginUnderWay(handler) && handler.purpose.hash == hash
  }

  ghost predicate NoLoginFor(s: State, hash: Hash) {
    forall h <- s.handlers :: !LoginFor(s.handlers[h], hash)
  }

  ghost predicate BeginsNoneFor(steps: seq<Step>, hash: Hash) {
    forall step <- steps :: step.BeginCreate? ==> step.hash != hash
  }

  /** Once a hash is out of the table it stays out, over every run without a login that draws
      it: a logged-out token is refused. */
  lemma {:induction false} StaysLoggedOut(s: State, steps: seq<Step>, hash: Hash)
    requires hash !in s.table && NoLoginFor(s, hash) && BeginsNoneFor(steps, hash)
    ensures hash !in Run(s, steps).table
    ensures forall g, now, sid :: !LetsIn(Run(s, steps), g, hash, now, sid)
    decreases |steps|
  {
    if steps == [] {
      forall g, now, sid ensures !LetsIn(s, g, hash, now, sid) {
        if LetsIn(s, g, hash, now, sid) {
          LetInIsListed(s, g, hash, now, sid);
        }
      }
    } else {
      assert steps[0] in steps;
      StepKeepsOut(s, steps[0], hash);
      StepKeepsNoLogin(s, steps[0], hash);
      StaysLoggedOut(Do(s, steps[0]), steps[1..], hash);
    }
  }

  lemma StepKeepsOut(s: State, step: Step, hash: Hash)
    requires hash !in s.table && NoLoginFor(s, hash)
    ensures hash !in Do(s, step).table
  {
    if step.Unlock? {
      if LoginDone(s, step.h) && step.sid !in s.sessions {
        UnlockTable(s, step.h, step.sid);
      } else {
        OtherUnlockKeepsTable(s, step.h, step.sid);
      }
    } else {
      OtherStepShrinks(s, step);
    }
  }

  lemma StepKeepsNoLogin(s: State, step: Step, hash: Hash)
    requires NoLoginFor(s, hash) && (step.BeginCreate? ==> step.hash != hash)
    ensures NoLoginFor(Do(s, step), hash)
  {
    var s' := Do(s, step);
    forall h | h in s'.handlers ensures !LoginFor(s'.handlers[h], hash) {
      HandlerAfter(s, step, h);
      LoginKeepsHash(s, s', step, h, hash);
    }
  }

  lemma LoginKeepsHash(s: State, s': State, step: Step, h: Hid, hash: Hash)
    requires Follows(s, s', step, h) && h in s'.handlers && (step.BeginCreate? ==> step.hash != hash)
    requires h in s.handlers ==> !LoginFor(s.handlers[h], hash)
    ensures !LoginFor(s'.handlers[h], hash)
  {
  }

  // ---- logging in ----

  /** New requests with the token are answered with the session, if there is one, up to its end. */
  ghost predicate LetsInUntil(s: State, hash: Hash, sid: Sid, end: Time) {
    forall g, now | g !in s.handlers :: LetsIn(s, g, hash, now, sid) <==> sid in s.sessions && now < end
  }

  /** A login that has pruned lists its session, valid until its end, exactly if the table
      without the replaced entry has room. */
  lemma LoginLists(s: State, h: Hid, sid: Sid)
    requires Reachable(s) && LoginDone(s, h) && sid !in s.sessions
    ensures
      var p, t := s.handlers[h].purpose, Do(s, Unlock(h, sid));
      var kept := WithoutCookie(s.table, p.cookie);
      && t.mu.None? && (sid in t.sessions <==> |kept| < s.maxSessions)
      && t.table == (if |kept| < s.maxSessions then kept[p.hash := sid] else kept)
      && LetsInUntil(t, p.hash, sid, p.expiresAt)
  {
    ReachableKnown(s);
    UnlockTable(s, h, sid);
    ListedLogin(s, Do(s, Unlock(h, sid)), s.handlers[h].purpose, sid);
  }

  lemma ListedLogin(s: State, t: State, p: Purpose, sid: Sid)
    requires TableKnown(s) && t.mu.None? && p.Create? && sid !in s.sessions
    requires
      var kept := WithoutCookie(s.table, p.cookie);
      if sid in t.sessions then
        && t.table == kept[p.hash := sid]
        && t.sessions == s.sessions[sid := SessionState(p.expiresAt, false, {}, map[], 0)]
      else t.table == kept && t.sessions == s.sessions
    ensures LetsInUntil(t, p.hash, sid, p.expiresAt)
  {
    assert TableKnown(t);
    forall g, now | g !in t.handlers
      ensures LetsIn(t, g, p.hash, now, sid) <==> sid in t.sessions && now < p.expiresAt
    {
      LetsInIff(t, g, p.hash, now, sid);
    }
  }

  /** The session that a login's cookie names is over, whether or not the login finds room. */
  lemma ReplacedEnds(s: State, h: Hid, sid: Sid)
    requires FreshlyReached(s) && LoginDone(s, h) && sid !in s.sessions
    requires s.handlers[h].purpose.cookie.Some? && s.handlers[h].purpose.cookie.value in s.table
    ensures OverFrom(Do(s, Unlock(h, sid)), h, s.table[s.handlers[h].purpose.cookie.value])
  {
    FreshlyReachedOk(s);
    ReplacedIsEnding(s, h, sid, s.handlers[h].purpose.cookie.value);
    EndingIsOver(Do(s, Unlock(h, sid)), h, s.table[s.handlers[h].purpose.cookie.value]);
  }

  lemma ReplacedIsEnding(s: State, h: Hid, sid: Sid, cookie: Hash)
    requires ListedOk(s) && TableKnown(s) && LoginDone(s, h) && sid !in s.sessions
    requires s.handlers[h].purpose.cookie == Some(cookie) && cookie in s.table
    ensures Ending(DoUnlock(s, h, sid), h, s.table[cookie])
  {
    OnlyEntry(s, cookie);
    UnlockTable(s, h, sid);
    UnlockHolds(s, h, sid, s.table[cookie]);
    UnlockKeepsSession(s, h, sid, s.table[cookie]);
  }

  lemma UnlockHolds(s: State, h: Hid, sid: Sid, replaced: Sid)
    requires LoginDone(s, h) && sid !in s.sessions
    requires s.handlers[h].purpose.cookie.Some? && s.handlers[h].purpose.cookie.value in s.table
    requires replaced == s.table[s.handlers[h].purpose.cookie.value]
    ensures HeldAt(DoUnlock(s, h, sid), h, replaced)
  {
    assert BeforeInsert(s, h).handlers[h] == Revoking(s.handlers[h].expired + {replaced});
  }
}
