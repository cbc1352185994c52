/** One room under every interleaving of producer handlers, viewer handlers, writers,
    the janitor and shutdown. Each lock region, each channel operation and each gap
    between them is a step of its own; a disabled step changes nothing. */
module RoomSystem {
  import opened Wrappers
  import opened RelayRoom

  type Vid = nat
  type Pid = nat

  /** An offer inside a viewer's critical section: made by a publisher, or by the
      viewer's own handler (`None`); `drained` records the first select's outcome. */
  datatype Offering = Offering(actor: Option<Pid>, frame: Frame, drained: Option<bool>)

  datatype Producer =
    | Claimed(generation: nat)
    | Attached(generation: nat, conn: Conn)
    | Publishing(generation: nat, conn: Conn, frame: Frame, todo: set<Vid>, at: Option<Vid>, dropped: nat)
    | Leaving(generation: nat, left: Option<Conn>)
    | Released(generation: nat)
  {
    function ConnOf(): Option<Conn> {
      match this
      case Attached(_, c) => Some(c)
      case Publishing(_, c, _, _, _, _) => Some(c)
      case Leaving(_, c) => c
      case _ => None
    }
  }

  /** How far a viewer's handler has come. */
  datatype Stage =
    | Added(initial: Option<Frame>)
    | InRoom(initial: Option<Frame>, conn: Conn)
    | Ready(initial: Option<Frame>, conn: Conn)
    | Streaming(conn: Conn)
    | Quitting(left: Option<Conn>)
    | Gone
  {
    function ConnOf(): Option<Conn> {
      match this
      case InRoom(_, c) => Some(c)
      case Ready(_, c) => Some(c)
      case Streaming(c) => Some(c)
      case Quitting(c) => c
      case _ => None
    }

    /** The frame `addViewer` returned, while it is still to be offered. */
    function InitialOf(): Option<Frame> {
      match this
      case Added(f) => f
      case InRoom(f, _) => f
      case Ready(f, _) => f
      case _ => None
    }
  }

  /** `joined`, `accepted` and `taken` are history: the room's generation when the
      viewer registered, the frames its slot accepted, the frames its writer received. */
  datatype Watcher = Watcher(
    slot: Slot,
    mu: Option<Offering>,
    stage: Stage,
    writing: bool,
    joined: nat,
    accepted: seq<Frame>,
    taken: seq<Frame>)

  /** Everything after `watchers` is history, except the drop metric. */
  datatype State = State(
    room: RoomState<Vid>,
    producers: map<Pid, Producer>,
    watchers: map<Vid, Watcher>,
    holder: Option<Pid>,
    published: seq<Frame>,
    discarded: seq<(Vid, Frame)>,
    dropMetric: nat,
    releases: seq<nat>,
    closed: set<Conn>)

  function Init(maxViewers: nat): State {
    State(RoomState(maxViewers, false, 0, None, {}, map[], None, 0.0, 0, false),
          map[], map[], None, [], [], 0, [], {})
  }

  datatype Step =
    | Claim(p: Pid)
    | AttachProducer(p: Pid, conn: Conn)
    | PublishBegin(p: Pid, payload: Payload, now: Time)
    | OfferEnter(p: Pid, v: Vid)
    | PublishEnd(p: Pid)
    | ProducerLeaves(p: Pid)
    | ReleaseProducer(p: Pid)
    | AddViewer(v: Vid, now: Time, ttl: Time)
    | AttachViewer(v: Vid, conn: Conn)
    | AttachSession(v: Vid, ok: bool)
    | InitialEnter(v: Vid)
    | StartWriter(v: Vid)
    | Drain(v: Vid)
    | Send(v: Vid)
    | Take(v: Vid)
    | ViewerLeaves(v: Vid)
    | RemoveViewer(v: Vid)
    | Expire(now: Time, ttl: Time)
    | CloseConnections

  function Do(s: State, step: Step): State {
    match step
    case Claim(p) => DoClaim(s, p)
    case AttachProducer(p, conn) => DoAttachProducer(s, p, conn)
    case PublishBegin(p, payload, now) => DoPublishBegin(s, p, payload, now)
    case OfferEnter(p, v) => DoOfferEnter(s, p, v)
    case PublishEnd(p) => DoPublishEnd(s, p)
    case ProducerLeaves(p) => DoProducerLeaves(s, p)
    case ReleaseProducer(p) => DoReleaseProducer(s, p)
    case AddViewer(v, now, ttl) => DoAddViewer(s, v, now, ttl)
    case AttachViewer(v, conn) => DoAttachViewer(s, v, conn)
    case AttachSession(v, ok) => DoAttachSession(s, v, ok)
    case InitialEnter(v) => DoInitialEnter(s, v)
    case StartWriter(v) => DoStartWriter(s, v)
    case Drain(v) => DoDrain(s, v)
    case Send(v) => DoSend(s, v)
    case Take(v) => DoTake(s, v)
    case ViewerLeaves(v) => DoViewerLeaves(s, v)
    case RemoveViewer(v) => DoRemoveViewer(s, v)
    case Expire(now, ttl) => s.(room := s.room.Expire(now, ttl))
    case CloseConnections => s.(room := s.room.Close(), closed := s.closed + s.room.Collected())
  }

  function Run(s: State, steps: seq<Step>): State
    decreases |steps|
  {
    if steps == [] then s else Run(Do(s, steps[0]), steps[1..])
  }

  ghost predicate Reachable(s: State) {
    exists maxViewers: nat, steps: seq<Step> :: s == Run(Init(maxViewers), steps)
  }

  // ---- producer handlers ----

  /** A new handler claims the slot; a refused handler answers 409 and is gone. */
  function DoClaim(s: State, p: Pid): State {
    var (room, r) := s.room.ClaimProducer();
    if p in s.producers || r.Err? then s
    else s.(room := room, producers := s.producers[p := Claimed(r.value)], holder := Some(p))
  }

  function DoAttachProducer(s: State, p: Pid, conn: Conn): State {
    if p !in s.producers || !s.producers[p].Claimed? then s
    else
      var g := s.producers[p].generation;
      var (room, ok) := s.room.AttachProducer(g, conn);
      s.(room := room,
         producers := s.producers[p := if ok then Attached(g, conn) else Producer.Leaving(g, None)])
  }

  function DoPublishBegin(s: State, p: Pid, payload: Payload, now: Time): State {
    if p !in s.producers || !s.producers[p].Attached? then s
    else
      var h := s.producers[p];
      var f := s.room.NextFrame(payload, now);
      s.(room := s.room.Publish(payload, now),
         producers := s.producers[p := Publishing(h.generation, h.conn, f, s.room.viewers, None, 0)],
         published := s.published + [f])
  }

  /** The generation test at the head of an offer, under the viewer's mutex. */
  function Accepts(w: Watcher, f: Frame): bool {
    f.generation > w.slot.newest
  }

  function Accepting(w: Watcher, actor: Option<Pid>, f: Frame): Watcher {
    w.(slot := w.slot.(newest := f.generation),
       mu := Some(Offering(actor, f, None)),
       accepted := w.accepted + [f])
  }

  function DoOfferEnter(s: State, p: Pid, v: Vid): State {
    if p !in s.producers || !s.producers[p].Publishing? || s.producers[p].at.Some?
       || v !in s.producers[p].todo || v !in s.watchers || s.watchers[v].mu.Some?
    then s
    else
      var h := s.producers[p];
      var w := s.watchers[v];
      if Accepts(w, h.frame) then
        s.(producers := s.producers[p := h.(at := Some(v))],
           watchers := s.watchers[v := Accepting(w, Some(p), h.frame)])
      else
        s.(producers := s.producers[p := h.(todo := h.todo - {v})])
  }

  function DoPublishEnd(s: State, p: Pid): State {
    if p !in s.producers || !s.producers[p].Publishing? || s.producers[p].todo != {} then s
    else
      var h := s.producers[p];
      s.(producers := s.producers[p := Attached(h.generation, h.conn)],
         dropMetric := s.dropMetric + h.dropped)
  }

  /** Any exit of the handler before its deferred release: a failed upgrade, a read
      error, a refused rate, an invalid snapshot. */
  function DoProducerLeaves(s: State, p: Pid): State {
    if p !in s.producers || !(s.producers[p].Claimed? || s.producers[p].Attached?) then s
    else
      var h := s.producers[p];
      s.(producers := s.producers[p := Producer.Leaving(h.generation, h.ConnOf())])
  }

  function DoReleaseProducer(s: State, p: Pid): State {
    if p !in s.producers || !s.producers[p].Leaving? then s
    else
      var g := s.producers[p].generation;
      s.(room := s.room.ReleaseProducer(g),
         producers := s.producers[p := Released(g)],
         holder := if s.holder == Some(p) then None else s.holder,
         releases := s.releases + [g])
  }

  // ---- viewer handlers and writers ----

  function DoAddViewer(s: State, v: Vid, now: Time, ttl: Time): State {
    var (room, r) := s.room.AddViewer(v, None, now, ttl);
    if v in s.watchers || r.Err? then s
    else
      var w := Watcher(Slot(0, None), None, Added(r.value), false, s.room.frameGeneration, [], []);
      s.(room := room, watchers := s.watchers[v := w])
  }

  function DoAttachViewer(s: State, v: Vid, conn: Conn): State {
    if v !in s.watchers || !s.watchers[v].stage.Added? then s
    else
      var w := s.watchers[v];
      var (room, ok) := s.room.AttachViewer(v, conn);
      s.(room := room,
         watchers := s.watchers[v := w.(stage := if ok then InRoom(w.stage.initial, conn) else Quitting(None))])
  }

  /** `ok` is the session's answer, which this room does not decide. */
  function DoAttachSession(s: State, v: Vid, ok: bool): State {
    if v !in s.watchers || !s.watchers[v].stage.InRoom? then s
    else
      var w := s.watchers[v];
      s.(watchers := s.watchers[v := w.(stage := if ok then Ready(w.stage.initial, w.stage.conn)
                                                 else Quitting(Some(w.stage.conn)))])
  }

  function InitialEntering(w: Watcher): Watcher {
    if !w.stage.Ready? || w.stage.initial.None? || w.mu.Some? then w
    else if Accepts(w, w.stage.initial.value) then Accepting(w, None, w.stage.initial.value)
    else w.(stage := Ready(None, w.stage.conn))
  }

  function DoInitialEnter(s: State, v: Vid): State {
    if v !in s.watchers then s
    else s.(watchers := s.watchers[v := InitialEntering(s.watchers[v])])
  }

  function DoStartWriter(s: State, v: Vid): State {
    if v !in s.watchers || !s.watchers[v].stage.Ready? || s.watchers[v].stage.initial.Some? then s
    else
      var w := s.watchers[v];
      s.(watchers := s.watchers[v := w.(stage := Streaming(w.stage.conn), writing := true)])
  }

  /** The first select of an offer. */
  function Drained(w: Watcher): Watcher
    requires w.mu.Some?
  {
    w.(slot := w.slot.(updates := None),
       mu := Some(w.mu.value.(drained := Some(w.slot.updates.Some?))))
  }

  function DoDrain(s: State, v: Vid): State {
    if v !in s.watchers || s.watchers[v].mu.None? || s.watchers[v].mu.value.drained.Some? then s
    else
      var w := s.watchers[v];
      s.(watchers := s.watchers[v := Drained(w)],
         discarded := if w.slot.updates.Some? then s.discarded + [(v, w.slot.updates.value)] else s.discarded)
  }

  /** The second select of an offer, whose `default` gives the frame up, and the unlock. */
  function Sent(w: Watcher): Watcher
    requires w.mu.Some?
  {
    w.(slot := if w.slot.updates.None? then w.slot.(updates := Some(w.mu.value.frame)) else w.slot,
       mu := None,
       stage := if SelfOffering(w) && w.stage.Ready? then Ready(None, w.stage.conn) else w.stage)
  }

  /** The viewer's own handler is inside the offer. */
  predicate SelfOffering(w: Watcher) {
    w.mu.Some? && w.mu.value.actor.None?
  }

  function DoSend(s: State, v: Vid): State {
    if v !in s.watchers || s.watchers[v].mu.None? || s.watchers[v].mu.value.drained.None? then s
    else
      var w := s.watchers[v];
      var o := w.mu.value;
      var s' := s.(watchers := s.watchers[v := Sent(w)]);
      if o.actor.Some? && o.actor.value in s.producers && s.producers[o.actor.value].Publishing? then
        var h := s.producers[o.actor.value];
        s'.(producers := s.producers[o.actor.value :=
              h.(todo := h.todo - {v}, at := None, dropped := h.dropped + if o.drained.value then 1 else 0)])
      else s'
  }

  /** The writer receives from the channel, without the viewer's mutex; it may still
      do so after the handler has left. */
  function Taking(w: Watcher): Watcher
    requires w.slot.updates.Some?
  {
    w.(slot := w.slot.(updates := None), taken := w.taken + [w.slot.updates.value])
  }

  function DoTake(s: State, v: Vid): State {
    if v !in s.watchers || !s.watchers[v].writing || s.watchers[v].slot.updates.None? then s
    else s.(watchers := s.watchers[v := Taking(s.watchers[v])])
  }

  function DoViewerLeaves(s: State, v: Vid): State {
    if v !in s.watchers || !(s.watchers[v].stage.Added? || s.watchers[v].stage.Streaming?) then s
    else
      var w := s.watchers[v];
      s.(watchers := s.watchers[v := w.(stage := Quitting(w.stage.ConnOf()))])
  }

  function DoRemoveViewer(s: State, v: Vid): State {
    if v !in s.watchers || !s.watchers[v].stage.Quitting? then s
    else
      var w := s.watchers[v];
      s.(room := s.room.RemoveViewer(v),
         watchers := s.watchers[v := w.(stage := Gone)])
  }
}
