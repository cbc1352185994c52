/** The relay's rooms and viewers: every lock region of a room as a function on
    values, and the classes whose methods carry those regions out in place. */
module RelayRoom {
  import opened Wrappers

  /** A websocket is an identity; a prepared message is its payload. */
  type Conn = nat
  type Time = real
  type Payload = string

  datatype RoomError = RoomClosing | ProducerAlreadyConnected | ViewerCapacity

  datatype Frame = Frame(generation: nat, payload: Payload, publishedAt: Time)

  /** What an offer touches: the newest generation accepted, and the one-slot channel. */
  datatype Slot = Slot(newest: nat, updates: Option<Frame>)
  {
    /** An offer that nothing interrupts. */
    function Offer(update: Frame): (Slot, bool) {
      if update.generation <= newest then (this, false)
      else (Slot(update.generation, Some(update)), updates.Some?)
    }
  }

  /** The fields guarded by a room's mutex; `conns` holds the connection of every
      registered viewer that has one, and `None` in `latest` is the zero frame. */
  datatype RoomState<V(==)> = RoomState(
    maxViewers: nat,
    producerActive: bool,
    producerGeneration: nat,
    producerConn: Option<Conn>,
    viewers: set<V>,
    conns: map<V, Conn>,
    latest: Option<Frame>,
    latestAt: Time,
    frameGeneration: nat,
    closing: bool)
  {
    function ClaimProducer(): (RoomState<V>, Result<nat, RoomError>) {
      if closing then (this, Err(RoomClosing))
      else if producerActive then (this, Err(ProducerAlreadyConnected))
      else (this.(producerActive := true, producerGeneration := producerGeneration + 1),
            Ok(producerGeneration + 1))
    }

    function AttachProducer(generation: nat, conn: Conn): (RoomState<V>, bool) {
      if closing || !producerActive || generation != producerGeneration then (this, false)
      else (this.(producerConn := Some(conn)), true)
    }

    function ReleaseProducer(generation: nat): RoomState<V> {
      if generation != producerGeneration then this
      else this.(producerActive := false, producerConn := None)
    }

    function AttachViewer(v: V, conn: Conn): (RoomState<V>, bool) {
      if closing || v !in viewers then (this, false)
      else (this.(conns := conns[v := conn]), true)
    }

    predicate Stale(now: Time, ttl: Time) {
      now - latestAt > ttl
    }

    /** `held` is the connection the viewer already carries; a new viewer has none. */
    function AddViewer(v: V, held: Option<Conn>, now: Time, ttl: Time)
      : (RoomState<V>, Result<Option<Frame>, RoomError>)
    {
      if closing then (this, Err(RoomClosing))
      else if |viewers| >= maxViewers then (this, Err(ViewerCapacity))
      else (this.(viewers := viewers + {v},
                  conns := if held.Some? then conns[v := held.value] else conns),
            Ok(if Stale(now, ttl) then None else latest))
    }

    function RemoveViewer(v: V): RoomState<V> {
      this.(viewers := viewers - {v}, conns := conns - {v})
    }

    function NextFrame(payload: Payload, now: Time): Frame {
      Frame(frameGeneration + 1, payload, now)
    }

    /** The part of a publish that runs under the room's mutex. */
    function Publish(payload: Payload, now: Time): RoomState<V> {
      this.(frameGeneration := frameGeneration + 1,
            latest := Some(NextFrame(payload, now)),
            latestAt := now)
    }

    function Expire(now: Time, ttl: Time): RoomState<V> {
      if latest.Some? && Stale(now, ttl) then this.(latest := None, latestAt := 0.0) else this
    }

    /** The connections a shutdown collects in the step that sets `closing`. */
    function Collected(): set<Conn> {
      conns.Values + (if producerConn.Some? then {producerConn.value} else {})
    }

    function Close(): RoomState<V> {
      this.(closing := true)
    }
  }

  /** Every slot after an uninterrupted offer, and the viewers whose frame it replaced. */
  ghost function OfferedAll<V>(slots: map<V, Slot>, update: Frame): map<V, Slot> {
    map v | v in slots :: slots[v].Offer(update).0
  }

  ghost function Replacing<V>(slots: map<V, Slot>, update: Frame): set<V> {
    set v | v in slots && slots[v].Offer(update).1
  }

  class Viewer {
    var newestGeneration: nat
    var updates: Option<Frame>
    var conn: Option<Conn>

    constructor ()
      ensures State() == Slot(0, None) && conn == None
    {
      newestGeneration, updates, conn := 0, None, None;
    }

    ghost function State(): Slot
      reads this
    {
      Slot(newestGeneration, updates)
    }

    method Offer(update: Frame) returns (replaced: bool)
      modifies this
      ensures conn == old(conn)
      ensures (State(), replaced) == old(State()).Offer(update)
    {
      if update.generation <= newestGeneration {
        return false;
      }
      newestGeneration := update.generation;
      replaced := false;
      if updates.Some? {
        updates := None;
        replaced := true;
      }
      if updates.None? {
        updates := Some(update);
      }
    }
  }

  class Room {
    const maxViewers: nat
    var producerActive: bool
    var producerGeneration: nat
    var producerConn: Option<Conn>
    var viewers: set<Viewer>
    var latest: Option<Frame>
    var latestAt: Time
    var frameGeneration: nat
    var closing: bool

    constructor (maxViewers: nat)
      ensures State() == RoomState(maxViewers, false, 0, None, {}, map[], None, 0.0, 0, false)
    {
      this.maxViewers := maxViewers;
      producerActive, producerGeneration, producerConn := false, 0, None;
      viewers, latest, latestAt, frameGeneration, closing := {}, None, 0.0, 0, false;
    }

    ghost function Conns(): map<Viewer, Conn>
      reads this, viewers
    {
      map v | v in viewers && v.conn.Some? :: v.conn.value
    }

    ghost function State(): RoomState<Viewer>
      reads this, viewers
    {
      RoomState(maxViewers, producerActive, producerGeneration, producerConn, viewers, Conns(),
                latest, latestAt, frameGeneration, closing)
    }

    method ClaimProducer() returns (r: Result<nat, RoomError>)
      modifies this
      ensures (State(), r) == old(State()).ClaimProducer()
    {
      if closing {
        return Err(RoomClosing);
      }
      if producerActive {
        return Err(ProducerAlreadyConnected);
      }
      producerActive := true;
      producerGeneration := producerGeneration + 1;
      assert Conns() == old(Conns());
      return Ok(producerGeneration);
    }

    method AttachProducer(generation: nat, conn: Conn) returns (ok: bool)
      modifies this
      ensures (State(), ok) == old(State()).AttachProducer(generation, conn)
    {
      if closing || !producerActive || generation != producerGeneration {
        return false;
      }
      producerConn := Some(conn);
      assert Conns() == old(Conns());
      return true;
    }

    method ReleaseProducer(generation: nat)
      modifies this
      ensures State() == old(State()).ReleaseProducer(generation)
    {
      if generation != producerGeneration {
        return;
      }
      producerActive := false;
      producerConn := None;
    }

    method AttachViewer(v: Viewer, conn: Conn) returns (ok: bool)
      modifies v`conn
      ensures (State(), ok) == old(State()).AttachViewer(v, conn)
      ensures v.conn == if ok then Some(conn) else old(v.conn)
    {
      if closing || v !in viewers {
        return false;
      }
      v.conn := Some(conn);
      assert Conns() == old(Conns())[v := conn];
      return true;
    }

    method AddViewer(v: Viewer, now: Time, ttl: Time) returns (r: Result<Option<Frame>, RoomError>)
      modifies this
      ensures (State(), r) == old(State()).AddViewer(v, v.conn, now, ttl)
    {
      if closing {
        return Err(RoomClosing);
      }
      if |viewers| >= maxViewers {
        return Err(ViewerCapacity);
      }
      viewers := viewers + {v};
      assert Conns() == if v.conn.Some? then old(Conns())[v := v.conn.value] else old(Conns());
      if latest.None? || now - latestAt > ttl {
        return Ok(None);
      }
      return Ok(latest);
    }

    method RemoveViewer(v: Viewer)
      modifies this
      ensures State() == old(State()).RemoveViewer(v)
    {
      viewers := viewers - {v};
    }

    ghost function Slots(): map<Viewer, Slot>
      reads this, viewers
    {
      map v | v in viewers :: v.State()
    }

    /** `prepared` is `None` when preparing the message fails, before any state is touched. */
    method Publish(prepared: Option<Payload>, now: Time) returns (dropped: Option<nat>)
      modifies this, viewers
      ensures prepared.None? ==> dropped.None? && State() == old(State()) && Slots() == old(Slots())
      ensures prepared.Some? ==>
                var update := old(State()).NextFrame(prepared.value, now);
                && State() == old(State()).Publish(prepared.value, now)
                && Slots() == OfferedAll(old(Slots()), update)
                && dropped == Some(|Replacing(old(Slots()), update)|)
    {
      if prepared.None? {
        return None;
      }
      frameGeneration := frameGeneration + 1;
      var update := Frame(frameGeneration, prepared.value, now);
      latest := Some(update);
      latestAt := now;
      assert Slots() == old(Slots());
      var replaced := OfferToAll(update);
      return Some(replaced);
    }

    /** The part of a publish that runs after the mutex is released, uninterrupted. */
    method OfferToAll(update: Frame) returns (dropped: nat)
      modifies viewers
      ensures Conns() == old(Conns())
      ensures Slots() == OfferedAll(old(Slots()), update)
      ensures dropped == |Replacing(old(Slots()), update)|
    {
      ghost var before := Slots();
      ghost var replacing := {};
      var todo := viewers;
      dropped := 0;
      while todo != {}
        invariant todo <= viewers
        invariant forall v <- viewers :: v.conn == old(v.conn)
        invariant forall v <- todo :: v.State() == before[v]
        invariant forall v <- viewers - todo :: v.State() == before[v].Offer(update).0
        invariant replacing == set v | v in viewers - todo && before[v].Offer(update).1
        invariant dropped == |replacing|
        decreases todo
      {
        var v :| v in todo;
        var replaced := v.Offer(update);
        if replaced {
          dropped := dropped + 1;
          replacing := replacing + {v};
        }
        todo := todo - {v};
      }
      assert replacing == Replacing(before, update);
    }

    method Expire(now: Time, ttl: Time)
      modifies this
      ensures State() == old(State()).Expire(now, ttl)
    {
      if latest.Some? && now - latestAt > ttl {
        latest := None;
        latestAt := 0.0;
      }
    }

    /** Returns the connections to close once the mutex is released. */
    method CloseConnections() returns (collected: set<Conn>)
      modifies this
      ensures State() == old(State()).Close()
      ensures collected == old(State()).Collected()
    {
      closing := true;
      collected := if producerConn.Some? then {producerConn.value} else {};
      var todo := viewers;
      while todo != {}
        invariant todo <= viewers
        invariant collected == (set v | v in viewers - todo && v.conn.Some? :: v.conn.value)
                               + if producerConn.Some? then {producerConn.value} else {}
        decreases todo
      {
        var v :| v in todo;
        if v.conn.Some? {
          collected := collected + {v.conn.value};
        }
        todo := todo - {v};
      }
      forall c | c in old(Conns()).Values ensures c in collected {
        var v :| v in old(Conns()) && old(Conns())[v] == c;
        assert v in viewers && v.conn == Some(c);
      }
      forall v | v in viewers && v.conn.Some? ensures v.conn.value in old(Conns()).Values {
        assert v in old(Conns()) && old(Conns())[v] == v.conn.value;
      }
    }
  }
}
