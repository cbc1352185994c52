/** What every interleaving of controllers and ticks keeps. */
module MailboxProofs {
  import opened Wrappers
  import opened Mailbox

  // ---- the invariants ----

  /** Results and applied tuples run ahead of the acknowledgement by the one in progress. */
  ghost predicate CountersOk(s: State) {
    && 0 <= s.completed <= s.request <= s.completed + 2 && s.request <= LONG_MAX
    && s.completed % 2 == 0
    && |s.published| == s.request / 2
    && |s.applied| == s.completed / 2 + (if s.tick.Applied? || s.tick.Stored? then 1 else 0)
    && |s.results| == s.completed / 2 + (if s.tick.Stored? then 1 else 0)
  }

  ghost predicate OwnerOk(s: State) {
    && (s.owner.Some? <==> s.request % 2 == 1)
    && (forall c :: At(s, c).Writing? <==> s.owner == Some(c))
  }

  /** `id` is the id of a published request with this tuple. */
  ghost predicate Published(s: State, id: int, v: Vector) {
    id % 2 == 0 && 2 <= id <= s.request && |s.published| == s.request / 2 && s.published[id / 2 - 1] == v
  }

  ghost predicate ControllerOk(s: State, a: Controller) {
    match a
    case Idle => true
    case Entered(v) => IsValidRequest(v)
    case ReadRequest(v, previous) => IsValidRequest(v) && previous % 2 == 0 && 0 <= previous <= s.request
    case MayClaim(v, previous) => IsValidRequest(v) && previous % 2 == 0 && 0 <= previous <= s.completed
    case Writing(v, previous, written) =>
      && IsValidRequest(v) && previous == s.completed && s.request == previous + 1 < LONG_MAX
      && written <= 3 && s.tuple[..written] == v[..written]
    case Waiting(v, id) => Published(s, id, v)
    case Acknowledged(v, id) => Published(s, id, v) && id <= s.completed
  }

  ghost predicate ControllersOk(s: State) {
    forall c :: ControllerOk(s, At(s, c))
  }

  /** A request is pending and `id` is its id. */
  ghost predicate Pending(s: State, id: int) {
    id == s.completed + 2 == s.request && |s.published| == s.request / 2 > 0
  }

  ghost predicate TickOk(s: State) {
    match s.tick
    case Resting => true
    case Looking(id) => id == s.completed || Pending(s, id)
    case Copying(id, copied) =>
      Pending(s, id) && |copied| <= 3 && copied == s.published[|s.published| - 1][..|copied|]
    case Coherent(id, v) => Pending(s, id) && v == s.published[|s.published| - 1]
    case Applied(id, v, ok) => Pending(s, id) && v == s.published[|s.published| - 1]
    case Stored(id) => Pending(s, id)
  }

  /** The tuple is the pending request's; all requests are valid; they are applied in order. */
  ghost predicate SlotOk(s: State) {
    && (s.request == s.completed + 2 && s.published != [] ==> s.tuple == s.published[|s.published| - 1])
    && (forall k | 0 <= k < |s.published| :: IsValidRequest(s.published[k]))
    && s.applied <= s.published
  }

  ghost predicate ResultsOk(s: State) {
    && (s.results != [] ==> s.succeeded == s.results[|s.results| - 1])
    && (forall k | 0 <= k < |s.verdicts| :: VerdictOk(s, s.verdicts[k]))
  }

  /** A verdict is the last result stored when it was read, for a request acknowledged by then. */
  ghost predicate VerdictOk(s: State, r: Verdict) {
    r.id % 2 == 0 && 1 <= r.id / 2 <= r.stored <= |s.results| && r.ok == s.results[r.stored - 1]
  }

  ghost predicate Inv(s: State) {
    CountersOk(s) && OwnerOk(s) && ControllersOk(s) && TickOk(s) && SlotOk(s) && ResultsOk(s)
  }

  // ---- every step keeps them ----

  /** What the other controllers depend on: ids only grow, publications stay, and the shared
      tuple only changes under its owner. */
  ghost predicate Grows(s: State, s': State) {
    && s.request <= s'.request && s.completed <= s'.completed
    && |s.published| == s.request / 2 && |s'.published| == s'.request / 2
    && s.published <= s'.published
  }

  lemma OthersStayOk(s: State, s': State, c: Cid)
    requires ControllersOk(s) && OwnerOk(s) && Grows(s, s')
    requires forall d :: d != c ==> At(s', d) == At(s, d)
    requires forall d :: d != c ==> !At(s, d).Writing?
    requires ControllerOk(s', At(s', c))
    ensures ControllersOk(s')
  {
    forall d ensures ControllerOk(s', At(s', d)) {
      if d != c {
        assert ControllerOk(s, At(s, d));
      }
    }
  }

  /** A controller that neither owns the odd state nor takes it moves by itself. */
  lemma PrivateStep(s: State, c: Cid, next: Controller)
    requires Inv(s) && !At(s, c).Writing? && !next.Writing? && ControllerOk(s, next)
    ensures Inv(Set(s, c, next))
  {
    PrivateStepKeepsControllers(s, c, next);
    var s' := Set(s, c, next);
    assert CountersOk(s') && TickOk(s') && SlotOk(s');
    forall k | 0 <= k < |s'.verdicts| ensures VerdictOk(s', s'.verdicts[k]) {
      assert VerdictOk(s, s.verdicts[k]);
    }
  }

  lemma PrivateStepKeepsControllers(s: State, c: Cid, next: Controller)
    requires ControllersOk(s) && OwnerOk(s) && !At(s, c).Writing? && !next.Writing? && ControllerOk(s, next)
    ensures ControllersOk(Set(s, c, next)) && OwnerOk(Set(s, c, next))
  {
    var s' := Set(s, c, next);
    forall d ensures ControllerOk(s', At(s', d)) && (At(s', d).Writing? <==> s'.owner == Some(d)) {
      assert At(s', d) == if d == c then next else At(s, d);
      assert ControllerOk(s, At(s, d));
    }
  }

  lemma EnterKeeps(s: State, c: Cid, v: Vector)
    requires Inv(s)
    ensures Inv(DoEnter(s, c, v))
  {
    if At(s, c).Idle? && IsValidRequest(v) {
      PrivateStep(s, c, Entered(v));
    }
  }

  lemma LoadRequestKeeps(s: State, c: Cid)
    requires Inv(s)
    ensures Inv(DoLoadRequest(s, c))
  {
    assert ControllerOk(s, At(s, c));
    if At(s, c).Entered? {
      PrivateStep(s, c, if s.request % 2 != 0 then Idle else ReadRequest(At(s, c).v, s.request));
    }
  }

  lemma LoadCompletedKeeps(s: State, c: Cid)
    requires Inv(s)
    ensures Inv(DoLoadCompleted(s, c))
  {
    assert ControllerOk(s, At(s, c));
    if At(s, c).ReadRequest? {
      var a := At(s, c);
      PrivateStep(s, c, if a.previous != s.completed then Idle else MayClaim(a.v, a.previous));
    }
  }

  /** A successful compare-exchange finds nothing pending: the id read was even and
      acknowledged, and ids never come back. */
  lemma ClaimKeeps(s: State, c: Cid)
    requires Inv(s)
    ensures Inv(DoClaim(s, c))
  {
    var s' := DoClaim(s, c);
    assert ControllerOk(s, At(s, c));
    if At(s, c).MayClaim? {
      if At(s, c).previous > LONG_MAX - 2 || s.request != At(s, c).previous {
        PrivateStep(s, c, Idle);
      } else {
        assert s.request == s.completed && s.owner == None;
        OthersStayOk(s, s', c);
      }
    }
  }

  lemma WriteKeeps(s: State, c: Cid)
    requires Inv(s)
    ensures Inv(DoWrite(s, c))
  {
    var s' := DoWrite(s, c);
    assert ControllerOk(s, At(s, c));
    if At(s, c).Writing? && At(s, c).written < 3 {
      var w := At(s, c);
      assert s'.tuple[..w.written + 1] == w.v[..w.written + 1] by {
        assert s'.tuple[..w.written] == s.tuple[..w.written];
        assert s'.tuple[w.written] == w.v[w.written];
      }
      OthersStayOk(s, s', c);
    }
  }

  lemma PublishKeeps(s: State, c: Cid)
    requires Inv(s)
    ensures Inv(DoPublish(s, c))
  {
    var s' := DoPublish(s, c);
    assert ControllerOk(s, At(s, c));
    if At(s, c).Writing? && At(s, c).written >= 3 {
      var w := At(s, c);
      assert s.tuple == s.tuple[..3] && w.v == w.v[..3];
      assert s'.published[|s'.published| - 1] == w.v;
      OthersStayOk(s, s', c);
    }
  }

  lemma PollKeeps(s: State, c: Cid)
    requires Inv(s)
    ensures Inv(DoPoll(s, c))
  {
    assert ControllerOk(s, At(s, c));
    if At(s, c).Waiting? && s.completed == At(s, c).id {
      PrivateStep(s, c, Acknowledged(At(s, c).v, At(s, c).id));
    }
  }

  lemma GiveUpKeeps(s: State, c: Cid)
    requires Inv(s)
    ensures Inv(DoGiveUp(s, c))
  {
    if At(s, c).Waiting? {
      PrivateStep(s, c, Idle);
    }
  }

  lemma LoadSucceededKeeps(s: State, c: Cid)
    requires Inv(s)
    ensures Inv(DoLoadSucceeded(s, c))
  {
    assert ControllerOk(s, At(s, c));
    if At(s, c).Acknowledged? {
      PrivateStep(s, c, Idle);
      NewVerdict(Set(s, c, Idle), Verdict(c, At(s, c).id, s.succeeded, |s.results|));
    }
  }

  lemma NewVerdict(s: State, r: Verdict)
    requires Inv(s) && VerdictOk(s, r)
    ensures Inv(s.(verdicts := s.verdicts + [r]))
  {
    var s' := s.(verdicts := s.verdicts + [r]);
    TickStep(s, s');
    forall k | 0 <= k < |s'.verdicts| ensures VerdictOk(s', s'.verdicts[k]) {
      assert VerdictOk(s, if k < |s.verdicts| then s.verdicts[k] else r);
    }
  }

  /** The controllers do not see what the tick thread does privately. */
  lemma TickStep(s: State, s': State)
    requires ControllersOk(s) && OwnerOk(s)
    requires s'.request == s.request && s'.completed == s.completed && s'.published == s.published
    requires s'.tuple == s.tuple && s'.owner == s.owner && s'.controllers == s.controllers
    ensures ControllersOk(s') && OwnerOk(s')
  {
    forall d ensures ControllerOk(s', At(s', d)) && (At(s', d).Writing? <==> s'.owner == Some(d)) {
      assert At(s', d) == At(s, d) && ControllerOk(s, At(s, d));
    }
  }

  lemma TickLoadRequestKeeps(s: State)
    requires Inv(s)
    ensures Inv(DoTickLoadRequest(s))
  {
    TickStep(s, DoTickLoadRequest(s));
  }

  lemma TickLoadCompletedKeeps(s: State)
    requires Inv(s)
    ensures Inv(DoTickLoadCompleted(s))
  {
    TickStep(s, DoTickLoadCompleted(s));
  }

  lemma TickCopyKeeps(s: State)
    requires Inv(s)
    ensures Inv(DoTickCopy(s))
  {
    TickStep(s, DoTickCopy(s));
  }

  lemma TickRecheckKeeps(s: State)
    requires Inv(s)
    ensures Inv(DoTickRecheck(s))
  {
    TickStep(s, DoTickRecheck(s));
  }

  lemma RequestImpliesTeleport(v: Vector)
    requires IsValidRequest(v)
    ensures ValidTeleport(v)
  {
    forall c | c in v ensures Within(c, 1000000.0) {
      assert Within(c, 200000.0);
    }
  }

  lemma TickSetPositionKeeps(s: State, ok: bool)
    requires Inv(s)
    ensures Inv(DoTickSetPosition(s, ok))
  {
    TickStep(s, DoTickSetPosition(s, ok));
    if s.tick.Coherent? {
      RequestImpliesTeleport(s.tick.v);
    }
  }

  lemma TickStoreKeeps(s: State)
    requires Inv(s)
    ensures Inv(DoTickStore(s))
  {
    var s' := DoTickStore(s);
    TickStep(s, s');
    forall k | 0 <= k < |s'.verdicts| ensures VerdictOk(s', s'.verdicts[k]) {
      assert VerdictOk(s, s.verdicts[k]);
    }
  }

  lemma TickAcknowledgeKeeps(s: State)
    requires Inv(s)
    ensures Inv(DoTickAcknowledge(s))
  {
    var s' := DoTickAcknowledge(s);
    if s.tick.Stored? {
      forall d ensures ControllerOk(s', At(s', d)) && (At(s', d).Writing? <==> s'.owner == Some(d)) {
        assert At(s', d) == At(s, d) && ControllerOk(s, At(s, d));
      }
      forall k | 0 <= k < |s'.verdicts| ensures VerdictOk(s', s'.verdicts[k]) {
        assert VerdictOk(s, s.verdicts[k]);
      }
    }
  }

  lemma StepKeepsInv(s: State, step: Step)
    requires Inv(s)
    ensures Inv(Do(s, step))
  {
    match step
    case Enter(c, v) => EnterKeeps(s, c, v);
    case LoadRequest(c) => LoadRequestKeeps(s, c);
    case LoadCompleted(c) => LoadCompletedKeeps(s, c);
    case Claim(c) => ClaimKeeps(s, c);
    case Write(c) => WriteKeeps(s, c);
    case Publish(c) => PublishKeeps(s, c);
    case Poll(c) => PollKeeps(s, c);
    case GiveUp(c) => GiveUpKeeps(s, c);
    case LoadSucceeded(c) => LoadSucceededKeeps(s, c);
    case TickLoadRequest => TickLoadRequestKeeps(s);
    case TickLoadCompleted => TickLoadCompletedKeeps(s);
    case TickCopy => TickCopyKeeps(s);
    case TickRecheck => TickRecheckKeeps(s);
    case TickSetPosition(ok) => TickSetPositionKeeps(s, ok);
    case TickStore => TickStoreKeeps(s);
    case TickAcknowledge => TickAcknowledgeKeeps(s);
  }

  lemma {:induction false} RunKeepsInv(s: State, steps: seq<Step>)
    requires Inv(s)
    ensures Inv(Run(s, steps))
    decreases |steps|
  {
    if steps != [] {
      StepKeepsInv(s, steps[0]);
      RunKeepsInv(Do(s, steps[0]), steps[1..]);
    }
  }

  lemma ReachableInv(s: State)
    requires Reachable(s)
    ensures Inv(s)
  {
    var steps :| s == Run(Init(), steps);
    RunKeepsInv(Init(), steps);
  }

  // ---- what the protocol is for ----

  /** At most one request is outstanding; the odd state is the one between two ids; ids fit. */
  lemma OneOutstanding(s: State)
    requires Reachable(s)
    ensures s.request - s.completed in {0, 1, 2}
    ensures s.request - s.completed == 1 <==> s.request % 2 == 1
    ensures 0 <= s.completed <= s.request <= LONG_MAX
  {
    ReachableInv(s);
  }

  /** A controller writes the tuple exactly while the id is odd, and no other does. */
  lemma OneWriter(s: State)
    requires Reachable(s)
    ensures s.request % 2 == 1 <==> exists c :: At(s, c).Writing?
    ensures forall c, d :: At(s, c).Writing? && At(s, d).Writing? ==> c == d
  {
    ReachableInv(s);
    if s.request % 2 == 1 {
      assert At(s, s.owner.value).Writing?;
    }
  }

  /** The tick thread gives SetPosition the published tuples, whole, in order, each once;
      by the time a controller sees its id acknowledged its own tuple has been applied. */
  lemma AppliedOnceInOrder(s: State)
    requires Reachable(s)
    ensures s.applied <= s.published && |s.published| == s.request / 2
    ensures s.completed / 2 <= |s.applied| <= s.completed / 2 + 1
    ensures forall c | At(s, c).Waiting? ::
              At(s, c).id % 2 == 0 && 2 <= At(s, c).id <= s.request && s.published[At(s, c).id / 2 - 1] == At(s, c).v
    ensures forall c | At(s, c).Acknowledged? ::
              2 <= At(s, c).id <= s.completed && s.applied[At(s, c).id / 2 - 1] == At(s, c).v
  {
    ReachableInv(s);
    forall c
      ensures At(s, c).Waiting? || At(s, c).Acknowledged? ==> Published(s, At(s, c).id, At(s, c).v)
      ensures At(s, c).Acknowledged? ==> At(s, c).id <= s.completed
    {
      assert ControllerOk(s, At(s, c));
    }
  }

  /** The recheck after the copy never fails, and neither does the tick thread's own range
      check: a copied tuple is always the whole tuple of the pending request. */
  lemma ChecksNeverFail(s: State)
    requires Reachable(s)
    ensures s.tick.Copying? && |s.tick.copied| == 3 ==>
              && s.request == s.tick.id && 1 <= s.tick.id / 2 <= |s.published|
              && s.tick.copied == s.published[s.tick.id / 2 - 1]
    ensures s.tick.Coherent? ==> ValidTeleport(s.tick.v)
  {
    ReachableInv(s);
    if s.tick.Coherent? {
      RequestImpliesTeleport(s.tick.v);
    }
  }

  /** A tick up to the recheck, undisturbed. */
  function Copies(s: State): State {
    DoTickRecheck(DoTickCopy(DoTickCopy(DoTickCopy(DoTickLoadCompleted(DoTickLoadRequest(s))))))
  }

  lemma CopiesNext(s: State, n: nat)
    requires n < 3
    ensures DoTickCopy(s.(tick := Copying(s.request, s.tuple[..n]))) == s.(tick := Copying(s.request, s.tuple[..n + 1]))
  {
    assert s.tuple[..n] + [s.tuple[n]] == s.tuple[..n + 1];
  }

  lemma CopiesTuple(s: State)
    requires Inv(s) && s.tick.Resting? && s.request == s.completed + 2
    ensures Copies(s) == s.(tick := Coherent(s.request, s.tuple))
  {
    assert s.tuple[..0] == [] && s.tuple[..3] == s.tuple;
    LooksAndFinds(s);
    CopiesNext(s, 0);
    CopiesNext(s, 1);
    CopiesNext(s, 2);
  }

  lemma LooksAndFinds(s: State)
    requires Inv(s) && s.tick.Resting? && s.request == s.completed + 2
    ensures DoTickLoadCompleted(DoTickLoadRequest(s)) == s.(tick := Copying(s.request, []))
  {
  }

  /** A tick up to the stored result. */
  function Serves(s: State, ok: bool): State {
    DoTickStore(DoTickSetPosition(Copies(s), ok))
  }

  lemma ServesTuple(s: State, ok: bool)
    requires Inv(s) && s.tick.Resting? && s.request == s.completed + 2
    ensures Serves(s, ok) == s.(tick := Stored(s.request), succeeded := ok,
                                applied := s.applied + [s.tuple], results := s.results + [ok])
  {
    CopiesTuple(s);
    RequestImpliesTeleport(s.tuple);
  }

  /** One undisturbed tick serves a pending request, whatever led to it. */
  lemma OneTickServes(s: State, ok: bool)
    requires Reachable(s) && s.tick.Resting? && s.request == s.completed + 2
    ensures
      var s' := DoTickAcknowledge(Serves(s, ok));
      && s'.completed == s'.request == s.request && s'.tick.Resting?
      && s'.applied == s.applied + [s.tuple] && s'.results == s.results + [ok] && s'.succeeded == ok
  {
    ReachableInv(s);
    ServesTuple(s, ok);
  }

  /** A controller reports the last result stored when it reads, at least its own. */
  lemma VerdictIsLatest(s: State, k: nat)
    requires Reachable(s) && k < |s.verdicts|
    ensures
      var r := s.verdicts[k];
      1 <= r.id / 2 <= r.stored <= |s.results| && r.ok == s.results[r.stored - 1]
  {
    ReachableInv(s);
    assert VerdictOk(s, s.verdicts[k]);
  }

  /** A controller queues a request, undisturbed. */
  function Queues(s: State, c: Cid, v: Vector): State {
    DoPublish(DoWrite(DoWrite(DoWrite(Claims(s, c, v), c), c), c), c)
  }

  function Claims(s: State, c: Cid, v: Vector): State {
    DoClaim(DoLoadCompleted(DoLoadRequest(DoEnter(s, c, v), c), c), c)
  }

  lemma ClaimsSlot(s: State, c: Cid, v: Vector)
    requires Inv(s) && At(s, c).Idle? && IsValidRequest(v) && s.request == s.completed <= LONG_MAX - 2
    ensures Claims(s, c, v) == Set(s, c, Writing(v, s.request, 0)).(request := s.request + 1, owner := Some(c))
  {
    var s1 := DoEnter(s, c, v);
    var s2 := DoLoadRequest(s1, c);
    assert s2 == Set(s1, c, ReadRequest(v, s.request)) == Set(s, c, ReadRequest(v, s.request));
    var s3 := DoLoadCompleted(s2, c);
    assert s3 == Set(s, c, MayClaim(v, s.request));
  }

  /** Whenever nothing is pending and ids are left, a valid request gets through. */
  lemma QueuesRequest(s: State, c: Cid, v: Vector)
    requires Inv(s) && At(s, c).Idle? && IsValidRequest(v) && s.request == s.completed <= LONG_MAX - 2
    ensures Queues(s, c, v) == Set(s, c, Waiting(v, s.request + 2)).(
                                 request := s.request + 2, owner := None, tuple := v, published := s.published + [v])
  {
    ClaimsSlot(s, c, v);
    var s0 := Claims(s, c, v);
    WritesTuple(s0, c, v, s.request);
    SetTwice(s, c, Writing(v, s.request, 0), Writing(v, s.request, 3));
    PublishesTuple(s, c, v);
  }

  lemma PublishesTuple(s: State, c: Cid, v: Vector)
    ensures DoPublish(Set(s, c, Writing(v, s.request, 3)).(request := s.request + 1, owner := Some(c), tuple := v), c)
            == Set(s, c, Waiting(v, s.request + 2)).(
                 request := s.request + 2, owner := None, tuple := v, published := s.published + [v])
  {
    SetTwice(s, c, Writing(v, s.request, 3), Waiting(v, s.request + 2));
  }

  lemma SetTwice(s: State, c: Cid, a: Controller, b: Controller)
    ensures Set(Set(s, c, a), c, b) == Set(s, c, b)
  {
  }

  lemma WritesTuple(s: State, c: Cid, v: Vector, previous: int)
    requires At(s, c) == Writing(v, previous, 0)
    ensures DoWrite(DoWrite(DoWrite(s, c), c), c) == Set(s, c, Writing(v, previous, 3)).(tuple := v)
  {
    var s1 := DoWrite(s, c);
    assert s1 == Set(s, c, Writing(v, previous, 1)).(tuple := s.tuple[0 := v[0]]);
    var s2 := DoWrite(s1, c);
    assert s2 == Set(s, c, Writing(v, previous, 2)).(tuple := s.tuple[0 := v[0]][1 := v[1]]);
    assert s.tuple[0 := v[0]][1 := v[1]][2 := v[2]] == v;
  }

  /** What a controller reports need not be its own result: when its id is acknowledged and
      nothing is pending, another controller's request can be served before it reads. */
  lemma VerdictOfAnother(s: State, c: Cid, d: Cid, v: Vector, ok: bool)
    requires Reachable(s) && s.tick.Resting? && s.request == s.completed <= LONG_MAX - 2
    requires At(s, c).Acknowledged? && At(s, d).Idle? && IsValidRequest(v)
    ensures
      var s' := DoLoadSucceeded(Serves(Queues(s, d, v), ok), c);
      && s'.verdicts == s.verdicts + [Verdict(c, At(s, c).id, ok, |s.results| + 1)]
      && At(s, c).id / 2 <= |s.results| && s'.results == s.results + [ok]
  {
    ReachableInv(s);
    var s1 := Queues(s, d, v);
    QueuesRequest(s, d, v);
    QueuesKeepsInv(s, d, v);
    ServesTuple(s1, ok);
    ReadsLast(s, s1, Serves(s1, ok), c, ok);
  }

  lemma ReadsLast(s: State, s1: State, s2: State, c: Cid, ok: bool)
    requires CountersOk(s) && ControllersOk(s) && At(s, c).Acknowledged? && s.tick.Resting?
    requires At(s1, c) == At(s, c) && s1.results == s.results && s1.verdicts == s.verdicts
    requires s2.controllers == s1.controllers && s2.verdicts == s1.verdicts
    requires s2.succeeded == ok && s2.results == s1.results + [ok]
    ensures DoLoadSucceeded(s2, c).verdicts == s.verdicts + [Verdict(c, At(s, c).id, ok, |s.results| + 1)]
    ensures DoLoadSucceeded(s2, c).results == s.results + [ok]
    ensures At(s, c).id / 2 <= |s.results|
  {
    assert ControllerOk(s, At(s, c));
  }

  lemma QueuesKeepsInv(s: State, c: Cid, v: Vector)
    requires Inv(s)
    ensures Inv(Queues(s, c, v))
  {
    var s1 := DoEnter(s, c, v);
    EnterKeeps(s, c, v);
    var s2 := DoLoadRequest(s1, c);
    LoadRequestKeeps(s1, c);
    var s3 := DoLoadCompleted(s2, c);
    LoadCompletedKeeps(s2, c);
    var s4 := DoClaim(s3, c);
    ClaimKeeps(s3, c);
    var s5 := DoWrite(s4, c);
    WriteKeeps(s4, c);
    var s6 := DoWrite(s5, c);
    WriteKeeps(s5, c);
    WriteKeeps(s6, c);
    PublishKeeps(DoWrite(s6, c), c);
  }
}
