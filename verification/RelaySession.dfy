/** A relay session: the lock regions of session.go as functions on values, and the
    class whose methods carry them out in place. */
module RelaySession {
  import opened Wrappers
  import opened RelayRoom

  /** `conns` holds the connection of every reservation that has one; `closes` counts how
      often `done` was closed, which may happen once. */
  datatype SessionState<R(==)> = SessionState(
    expiresAt: Time,
    revoked: bool,
    viewers: set<R>,
    conns: map<R, Conn>,
    closes: nat)
  {
    predicate Valid(now: Time) {
      !revoked && expiresAt > now
    }

    predicate CanReserve(now: Time, maximum: nat) {
      Valid(now) && |viewers| < maximum
    }

    function Reserve(r: R): SessionState<R> {
      this.(viewers := viewers + {r})
    }

    predicate CanAttach(r: R, now: Time) {
      Valid(now) && r in viewers
    }

    function Attach(r: R, conn: Conn): SessionState<R> {
      this.(conns := conns[r := conn])
    }

    function Release(r: R): SessionState<R> {
      this.(viewers := viewers - {r}, conns := conns - {r})
    }

    /** The connections a revocation must close, empty when it comes second. */
    function Collected(): set<Conn> {
      if revoked then {} else conns.Values
    }

    function Revoke(): SessionState<R> {
      if revoked then this else this.(revoked := true, closes := closes + 1)
    }
  }

  class Reservation {
    var conn: Option<Conn>

    constructor ()
      ensures conn == None
    {
      conn := None;
    }
  }

  class Session {
    const expiresAt: Time
    var revoked: bool
    var viewers: set<Reservation>
    var doneClosed: bool

    constructor (expiresAt: Time)
      ensures Consistent() && State() == SessionState(expiresAt, false, {}, map[], 0)
    {
      this.expiresAt := expiresAt;
      revoked, viewers, doneClosed := false, {}, false;
    }

    /** Closing a closed channel would panic, so `done` is closed exactly when revoked. */
    ghost predicate Consistent()
      reads this
    {
      doneClosed == revoked
    }

    ghost function Conns(): map<Reservation, Conn>
      reads this, viewers
    {
      map r | r in viewers && r.conn.Some? :: r.conn.value
    }

    ghost function State(): SessionState<Reservation>
      reads this, viewers
    {
      SessionState(expiresAt, revoked, viewers, Conns(), if doneClosed then 1 else 0)
    }

    method IsValid(now: Time) returns (ok: bool)
      ensures ok == State().Valid(now)
    {
      ok := !revoked && expiresAt > now;
    }

    method ReserveViewer(now: Time, maximum: nat) returns (r: Option<Reservation>)
      requires Consistent()
      modifies this
      ensures Consistent()
      ensures r.Some? == old(State()).CanReserve(now, maximum)
      ensures r.Some? ==> fresh(r.value) && r.value.conn == None && State() == old(State()).Reserve(r.value)
      ensures r.None? ==> State() == old(State())
    {
      if revoked || expiresAt <= now || |viewers| >= maximum {
        return None;
      }
      var reservation := new Reservation();
      viewers := viewers + {reservation};
      assert Conns() == old(Conns());
      return Some(reservation);
    }

    method AttachViewer(r: Reservation, conn: Conn, now: Time) returns (ok: bool)
      requires Consistent()
      modifies r
      ensures Consistent()
      ensures ok == old(State()).CanAttach(r, now)
      ensures State() == if ok then old(State()).Attach(r, conn) else old(State())
      ensures r.conn == if ok then Some(conn) else old(r.conn)
    {
      if revoked || expiresAt <= now {
        return false;
      }
      if r !in viewers {
        return false;
      }
      r.conn := Some(conn);
      assert Conns() == old(Conns())[r := conn];
      return true;
    }

    method ReleaseViewer(r: Reservation)
      requires Consistent()
      modifies this
      ensures Consistent() && State() == old(State()).Release(r)
    {
      viewers := viewers - {r};
      assert Conns() == old(Conns()) - {r};
    }

    method CloseDone()
      requires !doneClosed
      modifies this`doneClosed
      ensures doneClosed
    {
      doneClosed := true;
    }

    /** Returns the connections to close once the mutex is released. */
    method RevokeAt() returns (collected: set<Conn>)
      requires Consistent()
      modifies this
      ensures Consistent() && State() == old(State()).Revoke()
      ensures collected == old(State()).Collected()
    {
      if revoked {
        return {};
      }
      revoked := true;
      CloseDone();
      collected := {};
      var todo := viewers;
      while todo != {}
        invariant todo <= viewers
        invariant collected == set r | r in viewers - todo && r.conn.Some? :: r.conn.value
        decreases todo
      {
        var r :| r in todo;
        if r.conn.Some? {
          collected := collected + {r.conn.value};
        }
        todo := todo - {r};
      }
      assert Conns() == old(Conns());
      forall c | c in Conns().Values ensures c in collected {
        var r :| r in Conns() && Conns()[r] == c;
        assert r in viewers && r.conn == Some(c);
      }
      forall r | r in viewers && r.conn.Some? ensures r.conn.value in Conns().Values {
        assert r in Conns() && Conns()[r] == r.conn.value;
      }
    }
  }
}
