/** One room and the session table together, as the viewer handlers run them: a handler
    reserves in its session, joins the room, attaches its connection to the room and then to
    the session, and leaves in the opposite order. */
module RelayTogether {
  import opened Wrappers
  import opened RelayRoom
  import opened RelaySession
  import RoomSystem
  import RoomInvariants
  import RoomPreservation
  import SessionSystem
  import SessionInvariants

  /** A viewer of this room is known to its session by the same number. */
  datatype World = World(room: RoomSystem.State, table: SessionSystem.State)

  function Start(maxViewers: nat, maxSessions: nat, maxReserved: nat): World {
    World(RoomSystem.Init(maxViewers), SessionSystem.Init(maxSessions, maxReserved))
  }

  datatype Act =
    | InRoom(step: RoomSystem.Step)
    | InTable(change: SessionSystem.Step)
    | AttachBoth(v: RoomSystem.Vid, now: Time)

  predicate Reserved(w: World, v: RoomSystem.Vid) {
    v in w.table.visits && w.table.visits[v].present
  }

  /** Joining the room needs a reservation, and a reservation is released when its handler has
      left the room. The session's answer to a handler of this room is `AttachBoth`. */
  predicate Enabled(w: World, act: Act) {
    match act
    case InRoom(step) => !step.AttachSession? && (step.AddViewer? ==> Reserved(w, step.v))
    case InTable(change) =>
      && (change.Attach? ==> change.r !in w.room.watchers)
      && (change.Release? && change.r in w.room.watchers ==> w.room.watchers[change.r].stage.Gone?)
    case AttachBoth(v, _) => v in w.room.watchers && w.room.watchers[v].stage.InRoom? && Reserved(w, v)
  }

  /** Whether the session of a viewer takes its connection. */
  predicate Accepts(w: World, v: RoomSystem.Vid, now: Time)
    requires Reserved(w, v)
  {
    var sid := w.table.visits[v].sid;
    sid in w.table.sessions && w.table.sessions[sid].CanAttach(v, now)
  }

  function Next(w: World, act: Act): World {
    if !Enabled(w, act) then w
    else
      match act
      case InRoom(step) => w.(room := RoomSystem.Do(w.room, step))
      case InTable(change) => w.(table := SessionSystem.Do(w.table, change))
      case AttachBoth(v, now) =>
        World(RoomSystem.DoAttachSession(w.room, v, Accepts(w, v, now)),
              SessionSystem.DoAttach(w.table, v, w.room.watchers[v].stage.conn, now))
  }

  function Run(w: World, acts: seq<Act>): World
    decreases |acts|
  {
    if acts == [] then w else Run(Next(w, acts[0]), acts[1..])
  }

  ghost predicate Reached(w: World) {
    exists maxViewers: nat, maxSessions: nat, maxReserved: nat, acts: seq<Act> ::
      w == Run(Start(maxViewers, maxSessions, maxReserved), acts)
  }

  // ---- the link between the two ----

  /** The handler is past both attachments. */
  predicate Attached(stage: RoomSystem.Stage) {
    stage.Ready? || stage.Streaming?
  }

  ghost predicate Linked(w: World, v: RoomSystem.Vid)
    requires v in w.room.watchers
  {
    var stage := w.room.watchers[v].stage;
    && (!stage.Gone? ==> Reserved(w, v))
    && (Attached(stage) ==> Reserved(w, v) && w.table.visits[v].conn == stage.ConnOf())
  }

  ghost predicate WorldInv(w: World) {
    && RoomInvariants.Inv(w.room) && SessionInvariants.SessionsInv(w.table)
    && AllLinked(w)
  }

  /** A room step moves one handler forward, and past the session only where it was. */
  lemma RoomStepMoves(s: RoomSystem.State, step: RoomSystem.Step, v: RoomSystem.Vid)
    requires !step.AttachSession? && v in RoomSystem.Do(s, step).watchers
    ensures v !in s.watchers ==> step == RoomSystem.AddViewer(v, step.now, step.ttl)
    ensures v in s.watchers ==>
              var stage, stage' := s.watchers[v].stage, RoomSystem.Do(s, step).watchers[v].stage;
              && (stage.Gone? ==> stage'.Gone?)
              && (Attached(stage') ==> Attached(stage) && stage'.ConnOf() == stage.ConnOf())
    ensures v !in s.watchers ==> RoomSystem.Do(s, step).watchers[v].stage.Added?
  {
  }

  lemma TableStepKeepsVisit(s: SessionSystem.State, change: SessionSystem.Step, r: SessionSystem.Rid)
    requires r in s.visits && s.visits[r].present
    requires change.Attach? || change.Release? ==> change.r != r
    ensures var s' := SessionSystem.Do(s, change); r in s'.visits && s'.visits[r] == s.visits[r]
  {
    match change
    case Unlock(h, sid) => UnlockKeepsVisits(s, h, sid);
    case Reserve(h, q, now) => ReserveKeepsVisit(s, h, q, now, r);
    case Attach(q, conn, now) =>
    case Release(q) =>
    case Revoke(h, sid) =>
    case ExpireSession(sid) =>
    case _ => SessionInvariants.OtherStepOnlyHandles(s, change);
  }

  lemma ReserveKeepsVisit(s: SessionSystem.State, h: SessionSystem.Hid, q: SessionSystem.Rid, now: Time,
                          r: SessionSystem.Rid)
    requires r in s.visits
    ensures var s' := SessionSystem.DoReserve(s, h, q, now); r in s'.visits && s'.visits[r] == s.visits[r]
  {
  }

  lemma UnlockKeepsVisits(s: SessionSystem.State, h: SessionSystem.Hid, sid: SessionSystem.Sid)
    ensures SessionSystem.DoUnlock(s, h, sid).visits == s.visits
  {
    if h in s.handlers && s.handlers[h].Pruning? && s.handlers[h].purpose.Create? {
      SessionInvariants.BeforeInsertShape(s, h);
    }
  }

  ghost predicate AllLinked(w: World) {
    forall v <- w.room.watchers :: Linked(w, v)
  }

  lemma RoomStepLinks(w: World, step: RoomSystem.Step)
    requires AllLinked(w) && Enabled(w, InRoom(step))
    ensures AllLinked(Next(w, InRoom(step)))
  {
    var w' := Next(w, InRoom(step));
    forall v | v in w'.room.watchers ensures Linked(w', v) {
      RoomStepMoves(w.room, step, v);
      assert v in w.room.watchers ==> Linked(w, v);
    }
  }

  lemma TableStepLinks(w: World, change: SessionSystem.Step)
    requires AllLinked(w) && Enabled(w, InTable(change))
    ensures AllLinked(Next(w, InTable(change)))
  {
    var w' := Next(w, InTable(change));
    forall v | v in w'.room.watchers ensures Linked(w', v) {
      assert Linked(w, v);
      if !w.room.watchers[v].stage.Gone? {
        TableStepKeepsVisit(w.table, change, v);
      }
    }
  }

  lemma AttachLinks(w: World, u: RoomSystem.Vid, now: Time)
    requires AllLinked(w) && Enabled(w, AttachBoth(u, now))
    ensures AllLinked(Next(w, AttachBoth(u, now)))
  {
    var w' := Next(w, AttachBoth(u, now));
    forall v | v in w'.room.watchers ensures Linked(w', v) {
      assert Linked(w, v);
    }
  }

  lemma ActKeepsInv(w: World, act: Act)
    requires WorldInv(w)
    ensures WorldInv(Next(w, act))
  {
    if Enabled(w, act) {
      ActKeepsHalves(w, act);
      match act
      case InRoom(step) => RoomStepLinks(w, step);
      case InTable(change) => TableStepLinks(w, change);
      case AttachBoth(u, now) => AttachLinks(w, u, now);
    }
  }

  lemma ActKeepsHalves(w: World, act: Act)
    requires RoomInvariants.Inv(w.room) && SessionInvariants.SessionsInv(w.table) && Enabled(w, act)
    ensures RoomInvariants.Inv(Next(w, act).room) && SessionInvariants.SessionsInv(Next(w, act).table)
  {
    match act
    case InRoom(step) => RoomPreservation.StepKeepsInv(w.room, step);
    case InTable(change) => SessionInvariants.StepKeepsSessions(w.table, change);
    case AttachBoth(u, now) =>
      RoomPreservation.AttachSessionKeepsInv(w.room, u, Accepts(w, u, now));
      SessionInvariants.AttachKeepsSessions(w.table, u, w.room.watchers[u].stage.conn, now);
  }

  lemma {:induction false} RunKeepsInv(w: World, acts: seq<Act>)
    requires WorldInv(w)
    ensures WorldInv(Run(w, acts))
    decreases |acts|
  {
    if acts != [] {
      ActKeepsInv(w, acts[0]);
      RunKeepsInv(Next(w, acts[0]), acts[1..]);
    }
  }

  lemma ReachedInv(w: World)
    requires Reached(w)
    ensures WorldInv(w)
  {
    var maxViewers: nat, maxSessions: nat, maxReserved: nat, acts: seq<Act> :|
      w == Run(Start(maxViewers, maxSessions, maxReserved), acts);
    StartOk(maxViewers, maxSessions, maxReserved);
    RunKeepsInv(Start(maxViewers, maxSessions, maxReserved), acts);
  }

  lemma StartOk(maxViewers: nat, maxSessions: nat, maxReserved: nat)
    ensures WorldInv(Start(maxViewers, maxSessions, maxReserved))
  {
  }

  // ---- shutdown of both ----

  /** Once the room is closed it has collected every connection that a viewer handler holds,
      whatever the sessions answered. */
  lemma RoomLetsNoneEscape(w: World, v: RoomSystem.Vid)
    requires Reached(w) && v in w.room.watchers && w.room.watchers[v].stage.ConnOf().Some? && w.room.room.closing
    ensures w.room.watchers[v].stage.ConnOf().value in w.room.closed
  {
    ReachedInv(w);
    RoomCollects(w.room, v);
  }

  /** Once a session is revoked it has collected the connection of every handler that is past
      both attachments, and it turns away a handler between the two: so, with the room still
      open, none is left behind either. */
  lemma SessionLetsNoneEscape(w: World, v: RoomSystem.Vid, now: Time)
    requires Reached(w) && v in w.room.watchers && !w.room.watchers[v].stage.Gone?
    ensures Reserved(w, v) && w.table.visits[v].sid in w.table.sessions
    ensures var stage, sid := w.room.watchers[v].stage, w.table.visits[v].sid;
            w.table.sessions[sid].revoked ==>
              && (Attached(stage) ==> sid in w.table.collected && stage.ConnOf().value in w.table.collected[sid])
              && (stage.InRoom? ==> Next(w, AttachBoth(v, now)).room.watchers[v].stage.Quitting?)
  {
    ReachedLink(w, v);
    VisitHasSession(w.table, v);
    if w.table.sessions[w.table.visits[v].sid].revoked {
      if Attached(w.room.watchers[v].stage) {
        SessionCollects(w.table, v, w.room.watchers[v].stage.ConnOf().value);
      } else if w.room.watchers[v].stage.InRoom? {
        TurnedAway(w, v, now);
      }
    }
  }

  /** A handler whose connection is in the room passes on to streaming exactly if its session is
      unrevoked and before its end; then the session has the same connection. */
  lemma StreamsIff(w: World, v: RoomSystem.Vid, now: Time)
    requires Reached(w) && v in w.room.watchers && w.room.watchers[v].stage.InRoom?
    ensures Reserved(w, v) && w.table.visits[v].sid in w.table.sessions
    ensures
      var t, w' := w.table.sessions[w.table.visits[v].sid], Next(w, AttachBoth(v, now));
      if !t.revoked && now < t.expiresAt then
        w'.room.watchers[v].stage.Ready? && w'.table.visits[v].conn == Some(w.room.watchers[v].stage.conn)
      else w'.room.watchers[v].stage == RoomSystem.Quitting(Some(w.room.watchers[v].stage.conn))
  {
    ReachedLink(w, v);
    VisitHasSession(w.table, v);
    PresentIsListed(w.table, v);
    AttachBothAnswers(w, v, now);
  }

  lemma PresentIsListed(s: SessionSystem.State, r: SessionSystem.Rid)
    requires SessionInvariants.SessionsInv(s) && r in s.visits && s.visits[r].present
    ensures s.visits[r].sid in s.sessions && r in s.sessions[s.visits[r].sid].viewers
  {
    assert SessionInvariants.SessionOk(s, s.visits[r].sid);
  }

  lemma AttachBothAnswers(w: World, v: RoomSystem.Vid, now: Time)
    requires v in w.room.watchers && w.room.watchers[v].stage.InRoom? && Reserved(w, v)
    requires w.table.visits[v].sid in w.table.sessions && v in w.table.sessions[w.table.visits[v].sid].viewers
    ensures
      var t, w' := w.table.sessions[w.table.visits[v].sid], Next(w, AttachBoth(v, now));
      if !t.revoked && now < t.expiresAt then
        w'.room.watchers[v].stage.Ready? && w'.table.visits[v].conn == Some(w.room.watchers[v].stage.conn)
      else w'.room.watchers[v].stage == RoomSystem.Quitting(Some(w.room.watchers[v].stage.conn))
  {
  }

  lemma ReachedLink(w: World, v: RoomSystem.Vid)
    requires Reached(w) && v in w.room.watchers
    ensures SessionInvariants.SessionsInv(w.table) && Linked(w, v)
  {
    ReachedInv(w);
  }

  lemma RoomCollects(s: RoomSystem.State, v: RoomSystem.Vid)
    requires RoomInvariants.RegistryOk(s) && RoomInvariants.ClosedOk(s)
    requires v in s.watchers && s.watchers[v].stage.ConnOf().Some? && s.room.closing
    ensures s.watchers[v].stage.ConnOf().value in s.closed
  {
    assert v in s.room.conns && s.room.conns[v] in s.room.conns.Values;
  }

  lemma VisitHasSession(s: SessionSystem.State, r: SessionSystem.Rid)
    requires SessionInvariants.SessionsInv(s) && r in s.visits
    ensures s.visits[r].sid in s.sessions
  {
  }

  lemma SessionCollects(s: SessionSystem.State, r: SessionSystem.Rid, conn: Conn)
    requires SessionInvariants.SessionsInv(s) && r in s.visits && s.visits[r].present
    requires s.visits[r].conn == Some(conn) && s.visits[r].sid in s.sessions && s.sessions[s.visits[r].sid].revoked
    ensures s.visits[r].sid in s.collected && conn in s.collected[s.visits[r].sid]
  {
    var sid := s.visits[r].sid;
    assert SessionInvariants.SessionOk(s, sid);
    assert r in s.sessions[sid].conns && s.sessions[sid].conns[r] in s.sessions[sid].conns.Values;
  }

  lemma TurnedAway(w: World, v: RoomSystem.Vid, now: Time)
    requires v in w.room.watchers && w.room.watchers[v].stage.InRoom? && Reserved(w, v)
    requires w.table.visits[v].sid in w.table.sessions && w.table.sessions[w.table.visits[v].sid].revoked
    ensures Next(w, AttachBoth(v, now)).room.watchers[v].stage.Quitting?
  {
  }
}
