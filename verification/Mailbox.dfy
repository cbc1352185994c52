/** The single-slot teleport mailbox that any number of controller processes share with one
    tick thread. Every read, write and compare-exchange of a shared field is one step;
    steps interleave freely and are sequentially consistent. */
module Mailbox {
  import opened Wrappers

  type Cid = int

  const LONG_MAX: int := 0x7FFF_FFFF

  /** A float, as far as the range checks see it. */
  datatype Coordinate = Finite(value: real) | NonFinite

  type Vector = v: seq<Coordinate> | |v| == 3 witness [NonFinite, NonFinite, NonFinite]

  predicate Within(c: Coordinate, limit: real) {
    c.Finite? && -limit <= c.value <= limit
  }

  /** What a controller accepts. */
  predicate IsValidRequest(v: Vector) {
    forall c | c in v :: Within(c, 200000.0)
  }

  /** What the tick thread accepts. */
  predicate ValidTeleport(v: Vector) {
    forall c | c in v :: Within(c, 1000000.0)
  }

  predicate IsNear(a: Coordinate, b: Coordinate) {
    a.Finite? && b.Finite? && -2.0 <= a.value - b.value <= 2.0
  }

  /** A position read back is close enough to the one asked for. */
  predicate Near(v: Vector, requested: Vector) {
    forall i | 0 <= i < 3 :: IsNear(v[i], requested[i])
  }

  datatype Controller =
    | Idle
    | Entered(v: Vector)
    | ReadRequest(v: Vector, previous: int)
    | MayClaim(v: Vector, previous: int)
    | Writing(v: Vector, previous: int, written: nat)
    | Waiting(v: Vector, id: int)
    | Acknowledged(v: Vector, id: int)

  datatype Tick =
    | Resting
    | Looking(id: int)
    | Copying(id: int, copied: seq<Coordinate>)
    | Coherent(id: int, v: Vector)
    | Applied(id: int, v: Vector, ok: bool)
    | Stored(id: int)

  /** What a controller reports: its request, the result it read, and how many results had
      been stored when it read. */
  datatype Verdict = Verdict(c: Cid, id: int, ok: bool, stored: nat)

  /** Everything after `tick` is history: the controller that owns the odd state, the tuples
      published (the one with id `2 * (k + 1)` at `k`), the tuples given to SetPosition,
      the results stored, and what the controllers reported. */
  datatype State = State(
    tuple: Vector,
    request: int,
    completed: int,
    succeeded: bool,
    controllers: map<Cid, Controller>,
    tick: Tick,
    owner: Option<Cid>,
    published: seq<Vector>,
    applied: seq<Vector>,
    results: seq<bool>,
    verdicts: seq<Verdict>)

  /** The mapping is zeroed when it is created. */
  function Init(): State {
    State([Finite(0.0), Finite(0.0), Finite(0.0)], 0, 0, false, map[], Resting, None, [], [], [], [])
  }

  datatype Step =
    | Enter(c: Cid, v: Vector)
    | LoadRequest(c: Cid)
    | LoadCompleted(c: Cid)
    | Claim(c: Cid)
    | Write(c: Cid)
    | Publish(c: Cid)
    | Poll(c: Cid)
    | GiveUp(c: Cid)
    | LoadSucceeded(c: Cid)
    | TickLoadRequest
    | TickLoadCompleted
    | TickCopy
    | TickRecheck
    | TickSetPosition(ok: bool)
    | TickStore
    | TickAcknowledge

  function Do(s: State, step: Step): State {
    match step
    case Enter(c, v) => DoEnter(s, c, v)
    case LoadRequest(c) => DoLoadRequest(s, c)
    case LoadCompleted(c) => DoLoadCompleted(s, c)
    case Claim(c) => DoClaim(s, c)
    case Write(c) => DoWrite(s, c)
    case Publish(c) => DoPublish(s, c)
    case Poll(c) => DoPoll(s, c)
    case GiveUp(c) => DoGiveUp(s, c)
    case LoadSucceeded(c) => DoLoadSucceeded(s, c)
    case TickLoadRequest => DoTickLoadRequest(s)
    case TickLoadCompleted => DoTickLoadCompleted(s)
    case TickCopy => DoTickCopy(s)
    case TickRecheck => DoTickRecheck(s)
    case TickSetPosition(ok) => DoTickSetPosition(s, ok)
    case TickStore => DoTickStore(s)
    case TickAcknowledge => DoTickAcknowledge(s)
  }

  function Run(s: State, steps: seq<Step>): State
    decreases |steps|
  {
    if steps == [] then s else Run(Do(s, steps[0]), steps[1..])
  }

  ghost predicate Reachable(s: State) {
    exists steps: seq<Step> :: s == Run(Init(), steps)
  }

  // ---- the controllers ----

  function At(s: State, c: Cid): Controller {
    if c in s.controllers then s.controllers[c] else Idle
  }

  function Set(s: State, c: Cid, next: Controller): State {
    s.(controllers := s.controllers[c := next])
  }

  function DoEnter(s: State, c: Cid, v: Vector): State {
    if At(s, c).Idle? && IsValidRequest(v) then Set(s, c, Entered(v)) else s
  }

  function DoLoadRequest(s: State, c: Cid): State {
    if !At(s, c).Entered? then s
    else if s.request % 2 != 0 then Set(s, c, Idle)
    else Set(s, c, ReadRequest(At(s, c).v, s.request))
  }

  function DoLoadCompleted(s: State, c: Cid): State {
    if !At(s, c).ReadRequest? then s
    else if At(s, c).previous != s.completed then Set(s, c, Idle)
    else Set(s, c, MayClaim(At(s, c).v, At(s, c).previous))
  }

  /** The compare-exchange, behind the guard on the id. */
  function DoClaim(s: State, c: Cid): State {
    if !At(s, c).MayClaim? then s
    else
      var previous := At(s, c).previous;
      if previous > LONG_MAX - 2 || s.request != previous then Set(s, c, Idle)
      else
        Set(s, c, Writing(At(s, c).v, previous, 0)).(request := previous + 1, owner := Some(c))
  }

  function DoWrite(s: State, c: Cid): State {
    if !At(s, c).Writing? || At(s, c).written >= 3 then s
    else
      var w := At(s, c);
      Set(s, c, w.(written := w.written + 1)).(tuple := s.tuple[w.written := w.v[w.written]])
  }

  function DoPublish(s: State, c: Cid): State {
    if !At(s, c).Writing? || At(s, c).written < 3 then s
    else
      var w := At(s, c);
      Set(s, c, Waiting(w.v, w.previous + 2)).(
        request := w.previous + 2, owner := None, published := s.published + [w.v])
  }

  function DoPoll(s: State, c: Cid): State {
    if !At(s, c).Waiting? || s.completed != At(s, c).id then s
    else Set(s, c, Acknowledged(At(s, c).v, At(s, c).id))
  }

  function DoGiveUp(s: State, c: Cid): State {
    if !At(s, c).Waiting? then s else Set(s, c, Idle)
  }

  function DoLoadSucceeded(s: State, c: Cid): State {
    if !At(s, c).Acknowledged? then s
    else
      Set(s, c, Idle).(verdicts := s.verdicts + [Verdict(c, At(s, c).id, s.succeeded, |s.results|)])
  }

  // ---- the tick thread ----

  function DoTickLoadRequest(s: State): State {
    if !s.tick.Resting? || s.request == 0 || s.request % 2 != 0 then s
    else s.(tick := Looking(s.request))
  }

  function DoTickLoadCompleted(s: State): State {
    if !s.tick.Looking? then s
    else if s.tick.id == s.completed then s.(tick := Resting)
    else s.(tick := Copying(s.tick.id, []))
  }

  function DoTickCopy(s: State): State {
    if !s.tick.Copying? || |s.tick.copied| >= 3 then s
    else s.(tick := Copying(s.tick.id, s.tick.copied + [s.tuple[|s.tick.copied|]]))
  }

  function DoTickRecheck(s: State): State {
    if !s.tick.Copying? || |s.tick.copied| != 3 then s
    else if s.request != s.tick.id then s.(tick := Resting)
    else s.(tick := Coherent(s.tick.id, s.tick.copied))
  }

  /** `ok` is whether the position read back is close enough. */
  function DoTickSetPosition(s: State, ok: bool): State {
    if !s.tick.Coherent? then s
    else if ValidTeleport(s.tick.v) then
      s.(tick := Applied(s.tick.id, s.tick.v, ok), applied := s.applied + [s.tick.v])
    else
      s.(tick := Applied(s.tick.id, s.tick.v, false))
  }

  function DoTickStore(s: State): State {
    if !s.tick.Applied? then s
    else s.(tick := Stored(s.tick.id), succeeded := s.tick.ok, results := s.results + [s.tick.ok])
  }

  function DoTickAcknowledge(s: State): State {
    if !s.tick.Stored? then s else s.(tick := Resting, completed := s.tick.id)
  }
}
