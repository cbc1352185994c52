/** Whose result a controller reports. It waits for its id and then reads a flag that every
    served request overwrites: when does it read its own? */
module MailboxVerdicts {
  import opened Wrappers
  import opened Mailbox
  import opened MailboxProofs

  /** If the controller reads now, the last result stored is that of its own request. */
  ghost predicate ReadsOwn(s: State, c: Cid)
    requires At(s, c).Acknowledged?
  {
    var r := DoLoadSucceeded(s, c).verdicts[|s.verdicts|];
    r.stored == r.id / 2
  }

  /** An acknowledged controller is sure to report its own result, over every run in which it
      has not read yet, exactly if it holds the last id there is: otherwise some run serves
      another request first. */
  lemma ReportsOwnIff(s: State, c: Cid)
    requires Reachable(s) && At(s, c).Acknowledged?
    ensures (forall steps: seq<Step> | At(Run(s, steps), c) == At(s, c) :: ReadsOwn(Run(s, steps), c))
            <==> At(s, c).id == LONG_MAX - 1
  {
    ReachableInv(s);
    if At(s, c).id == LONG_MAX - 1 {
      forall steps: seq<Step> | At(Run(s, steps), c) == At(s, c) ensures ReadsOwn(Run(s, steps), c) {
        RunKeepsInv(s, steps);
        LastIdReadsOwn(Run(s, steps), c);
      }
    } else {
      var steps := LaterResult(s, c);
      RunKeepsInv(s, steps);
      assert !ReadsOwn(Run(s, steps), c);
    }
  }

  /** Once the last id is acknowledged, nothing can be published any more. */
  lemma LastIdReadsOwn(s: State, c: Cid)
    requires Inv(s) && At(s, c).Acknowledged? && At(s, c).id == LONG_MAX - 1
    ensures ReadsOwn(s, c)
  {
    assert ControllerOk(s, At(s, c));
    OddIsBelowTop(s);
  }

  lemma OddIsBelowTop(s: State)
    requires Inv(s)
    ensures s.request % 2 == 1 ==> s.request < LONG_MAX
  {
    if s.request % 2 == 1 {
      assert ControllerOk(s, At(s, s.owner.value));
    }
  }

  // ---- a run that stores a later result ----

  /** `steps` leave the controller where it is. */
  ghost predicate Leaves(s: State, c: Cid, steps: seq<Step>) {
    At(Run(s, steps), c) == At(s, c) && Inv(Run(s, steps))
  }

  lemma LaterResult(s: State, c: Cid) returns (steps: seq<Step>)
    requires Inv(s) && At(s, c).Acknowledged? && At(s, c).id != LONG_MAX - 1
    ensures Leaves(s, c, steps) && |Run(s, steps).results| > At(s, c).id / 2
  {
    assert ControllerOk(s, At(s, c));
    if |s.results| > At(s, c).id / 2 {
      steps := [];
    } else {
      var before := MakesPending(s, c);
      var t := Run(s, before);
      assert ControllerOk(t, At(t, c));
      var after := TickStores(t, c);
      RunAppend(s, before, after);
      steps := before + after;
    }
  }

  lemma {:induction false} RunAppend(s: State, a: seq<Step>, b: seq<Step>)
    ensures Run(s, a + b) == Run(Run(s, a), b)
    decreases |a|
  {
    if a == [] {
      assert a + b == b;
    } else {
      assert (a + b)[1..] == a[1..] + b;
      RunAppend(Do(s, a[0]), a[1..], b);
    }
  }

  /** One step, then the rest. */
  lemma RunStep(s: State, step: Step, rest: seq<Step>)
    ensures Run(s, [step] + rest) == Run(Do(s, step), rest)
  {
    assert ([step] + rest)[1..] == rest;
  }

  lemma RunTwo(s: State, a: Step, b: Step)
    ensures Run(s, [a, b]) == Do(Do(s, a), b)
  {
    assert [a, b] == [a] + ([b] + []);
    RunStep(s, a, [b] + []);
    RunStep(Do(s, a), b, []);
  }

  /** A request is pending, or the writer finishes one, or another controller queues one. */
  lemma MakesPending(s: State, c: Cid) returns (steps: seq<Step>)
    requires Inv(s) && At(s, c).Acknowledged? && At(s, c).id != LONG_MAX - 1
    requires |s.results| == At(s, c).id / 2
    ensures Leaves(s, c, steps)
    ensures Run(s, steps).request == Run(s, steps).completed + 2 && Run(s, steps).results == s.results
    ensures !Run(s, steps).tick.Stored?
  {
    assert ControllerOk(s, At(s, c));
    if s.request == s.completed + 2 {
      steps := [];
    } else if s.request % 2 == 1 {
      steps := WriterFinishes(s, c);
    } else {
      var d := Newcomer(s.controllers.Keys);
      assert At(s, d).Idle? && d != c;
      NewcomerClaims(s, c, d);
      var after := WriterFinishes(Claims(s, d, ORIGIN), c);
      RunAppend(s, ClaimSteps(d), after);
      steps := ClaimSteps(d) + after;
    }
  }

  const ORIGIN: Vector := [Finite(0.0), Finite(0.0), Finite(0.0)]

  function ClaimSteps(d: Cid): seq<Step> {
    [Enter(d, ORIGIN), LoadRequest(d)] + [LoadCompleted(d), Claim(d)]
  }

  lemma Member<T>(known: set<T>) returns (c: T)
    requires known != {}
    ensures c in known
  {
    c :| c in known;
  }

  lemma {:induction false} Newcomer(known: set<int>) returns (d: int)
    ensures forall c <- known :: c < d
    decreases |known|
  {
    if known == {} {
      d := 0;
    } else {
      var c := Member(known);
      var e := Newcomer(known - {c});
      d := if c < e then e else c + 1;
      forall x | x in known ensures x < d {
        if x != c {
          assert x in known - {c};
        }
      }
    }
  }

  lemma NewcomerClaims(s: State, c: Cid, d: Cid)
    requires Inv(s) && At(s, d).Idle? && d != c && s.request == s.completed <= LONG_MAX - 2
    ensures Run(s, ClaimSteps(d)) == Claims(s, d, ORIGIN)
    ensures Leaves(s, c, ClaimSteps(d)) && Claims(s, d, ORIGIN).results == s.results
    ensures Claims(s, d, ORIGIN).request == s.request + 1 && Claims(s, d, ORIGIN).tick == s.tick
  {
    ClaimsSlot(s, d, ORIGIN);
    RunClaim(s, d);
    RunKeepsInv(s, ClaimSteps(d));
  }

  lemma RunClaim(s: State, d: Cid)
    ensures Run(s, ClaimSteps(d)) == Claims(s, d, ORIGIN)
  {
    RunAppend(s, [Enter(d, ORIGIN), LoadRequest(d)], [LoadCompleted(d), Claim(d)]);
    RunTwo(s, Enter(d, ORIGIN), LoadRequest(d));
    RunTwo(DoLoadRequest(DoEnter(s, d, ORIGIN), d), LoadCompleted(d), Claim(d));
  }

  /** The controller that owns the odd state writes what is left and publishes. */
  lemma {:induction false} WriterFinishes(s: State, c: Cid) returns (steps: seq<Step>)
    requires Inv(s) && At(s, c).Acknowledged? && s.request % 2 == 1
    ensures Leaves(s, c, steps)
    ensures Run(s, steps).request == Run(s, steps).completed + 2 && Run(s, steps).results == s.results
    ensures Run(s, steps).tick == s.tick
    decreases 3 - At(s, s.owner.value).written
  {
    var d := s.owner.value;
    assert ControllerOk(s, At(s, d)) && d != c;
    if At(s, d).written < 3 {
      WriteKeeps(s, d);
      var rest := WriterFinishes(DoWrite(s, d), c);
      RunStep(s, Write(d), rest);
      steps := [Write(d)] + rest;
    } else {
      PublishKeeps(s, d);
      RunStep(s, Publish(d), []);
      steps := [Publish(d)] + [];
    }
  }

  /** How many steps the tick thread is from storing a result. */
  function StepsLeft(s: State): nat {
    match s.tick
    case Resting => 7
    case Looking(id) => if id == s.completed then 8 else 6
    case Copying(_, copied) => if |copied| < 3 then 5 - |copied| else 2
    case Coherent(_, _) => 1
    case _ => 0
  }

  function NextTick(s: State): Step {
    match s.tick
    case Resting => TickLoadRequest
    case Looking(_) => TickLoadCompleted
    case Copying(_, copied) => if |copied| < 3 then TickCopy else TickRecheck
    case Coherent(_, _) => TickSetPosition(true)
    case _ => TickStore
  }

  /** The tick thread, wherever it is, stores the result of the pending request. */
  lemma {:induction false} TickStores(s: State, c: Cid) returns (steps: seq<Step>)
    requires Inv(s) && s.request == s.completed + 2 && !s.tick.Stored?
    ensures Leaves(s, c, steps) && |Run(s, steps).results| == |s.results| + 1
    decreases StepsLeft(s)
  {
    var s' := Do(s, NextTick(s));
    StepKeepsInv(s, NextTick(s));
    if s.tick.Applied? {
      RunStep(s, TickStore, []);
      steps := [TickStore] + [];
    } else {
      TickAdvances(s);
      var rest := TickStores(s', c);
      RunStep(s, NextTick(s), rest);
      steps := [NextTick(s)] + rest;
    }
  }

  lemma TickAdvances(s: State)
    requires Inv(s) && s.request == s.completed + 2 && !s.tick.Stored? && !s.tick.Applied?
    ensures var s' := Do(s, NextTick(s));
            && StepsLeft(s') < StepsLeft(s) && !s'.tick.Stored?
            && s'.request == s.request && s'.completed == s.completed
            && s'.controllers == s.controllers && s'.results == s.results
  {
  }

  // ---- a wrong report ----

  function QueueSteps(d: Cid): seq<Step> {
    ClaimSteps(d) + ([Write(d), Write(d)] + [Write(d), Publish(d)])
  }

  function ServeSteps(ok: bool): seq<Step> {
    [TickLoadRequest, TickLoadCompleted, TickCopy] + [TickCopy, TickCopy, TickRecheck]
    + [TickSetPosition(ok), TickStore]
  }

  lemma RunServe(s: State, ok: bool)
    ensures Run(s, ServeSteps(ok)) == Serves(s, ok)
  {
    var copies := [TickLoadRequest, TickLoadCompleted, TickCopy] + [TickCopy, TickCopy, TickRecheck];
    RunCopies(s);
    RunAppend(s, copies, [TickSetPosition(ok), TickStore]);
    RunTwo(Copies(s), TickSetPosition(ok), TickStore);
  }

  lemma RunThree(s: State, a: Step, b: Step, c: Step)
    ensures Run(s, [a, b, c]) == Do(Do(Do(s, a), b), c)
  {
    assert [a, b, c] == [a] + ([b] + ([c] + []));
    RunStep(s, a, [b] + ([c] + []));
    RunStep(Do(s, a), b, [c] + []);
    RunStep(Do(Do(s, a), b), c, []);
  }

  lemma RunCopies(s: State)
    ensures Run(s, [TickLoadRequest, TickLoadCompleted, TickCopy] + [TickCopy, TickCopy, TickRecheck]) == Copies(s)
  {
    RunAppend(s, [TickLoadRequest, TickLoadCompleted, TickCopy], [TickCopy, TickCopy, TickRecheck]);
    RunThree(s, TickLoadRequest, TickLoadCompleted, TickCopy);
    RunThree(Do(Do(Do(s, TickLoadRequest), TickLoadCompleted), TickCopy), TickCopy, TickCopy, TickRecheck);
  }

  function Round(d: Cid, ok: bool): seq<Step> {
    QueueSteps(d) + ServeSteps(ok)
  }

  /** A request queued and served. */
  function RoundEnd(s: State, d: Cid, ok: bool): State {
    s.(controllers := s.controllers[d := Waiting(ORIGIN, s.request + 2)], request := s.request + 2, owner := None,
       tuple := ORIGIN, published := s.published + [ORIGIN], tick := Stored(s.request + 2), succeeded := ok,
       applied := s.applied + [ORIGIN], results := s.results + [ok])
  }

  function Queued(s: State, d: Cid): State {
    Set(s, d, Waiting(ORIGIN, s.request + 2)).(
      request := s.request + 2, owner := None, tuple := ORIGIN, published := s.published + [ORIGIN])
  }

  /** The slot claimed, and `n` coordinates written. */
  function Written(s: State, d: Cid, n: nat): State
    requires n <= 3
  {
    Set(s, d, Writing(ORIGIN, s.request, n)).(
      request := s.request + 1, owner := Some(d), tuple := ORIGIN[..n] + s.tuple[n..])
  }

  lemma ClaimEnds(s: State, d: Cid)
    requires Inv(s) && At(s, d).Idle? && s.request == s.completed <= LONG_MAX - 2
    ensures Run(s, ClaimSteps(d)) == Written(s, d, 0)
  {
    assert ORIGIN[..0] + s.tuple[0..] == s.tuple;
    RunClaim(s, d);
    ClaimsSlot(s, d, ORIGIN);
  }

  lemma WritesNext(s: State, d: Cid, n: nat)
    requires n < 3
    ensures Do(Written(s, d, n), Write(d)) == Written(s, d, n + 1)
  {
    var tuple := ORIGIN[..n] + s.tuple[n..];
    assert tuple[n := ORIGIN[n]] == ORIGIN[..n + 1] + s.tuple[n + 1..];
    SetTwice(s, d, Writing(ORIGIN, s.request, n), Writing(ORIGIN, s.request, n + 1));
  }

  lemma WritesEnd(s: State, d: Cid)
    ensures Run(Written(s, d, 0), [Write(d), Write(d)] + [Write(d), Publish(d)]) == Queued(s, d)
  {
    RunAppend(Written(s, d, 0), [Write(d), Write(d)], [Write(d), Publish(d)]);
    WritesNext(s, d, 0);
    WritesNext(s, d, 1);
    RunTwo(Written(s, d, 0), Write(d), Write(d));
    WritesNext(s, d, 2);
    PublishEnds(s, d);
    RunTwo(Written(s, d, 2), Write(d), Publish(d));
  }

  lemma PublishEnds(s: State, d: Cid)
    ensures Do(Written(s, d, 3), Publish(d)) == Queued(s, d)
  {
    assert ORIGIN[..3] + s.tuple[3..] == ORIGIN;
    SetTwice(s, d, Writing(ORIGIN, s.request, 3), Waiting(ORIGIN, s.request + 2));
  }

  lemma QueueEnds(s: State, d: Cid)
    requires Inv(s) && At(s, d).Idle? && s.request == s.completed <= LONG_MAX - 2
    ensures Run(s, QueueSteps(d)) == Queued(s, d)
  {
    RunAppend(s, ClaimSteps(d), [Write(d), Write(d)] + [Write(d), Publish(d)]);
    ClaimEnds(s, d);
    WritesEnd(s, d);
  }

  lemma QueuedOk(s: State, d: Cid)
    requires Inv(s) && At(s, d).Idle? && s.request == s.completed <= LONG_MAX - 2
    ensures Inv(Queued(s, d))
  {
    var steps := QueueSteps(d);
    QueueEnds(s, d);
    EndsOk(s, steps, Queued(s, d));
  }

  lemma EndsOk(s: State, steps: seq<Step>, t: State)
    requires Inv(s) && Run(s, steps) == t
    ensures Inv(t)
  {
    RunKeepsInv(s, steps);
  }

  lemma ServeEnds(s: State, d: Cid, ok: bool)
    requires Inv(Queued(s, d)) && s.request == s.completed && s.tick.Resting?
    ensures Run(Queued(s, d), ServeSteps(ok)) == RoundEnd(s, d, ok)
  {
    RunServe(Queued(s, d), ok);
    ServesTuple(Queued(s, d), ok);
  }

  lemma RunRound(s: State, d: Cid, ok: bool)
    requires Inv(s) && At(s, d).Idle? && s.request == s.completed <= LONG_MAX - 2 && s.tick.Resting?
    ensures Run(s, Round(d, ok)) == RoundEnd(s, d, ok)
  {
    RunAppend(s, QueueSteps(d), ServeSteps(ok));
    QueueEnds(s, d);
    QueuedOk(s, d);
    ServeEnds(s, d, ok);
  }

  lemma Acknowledges(s: State, c: Cid)
    requires At(s, c) == Waiting(ORIGIN, s.request) && s.tick == Stored(s.request)
    ensures Run(s, [TickAcknowledge, Poll(c)])
            == s.(tick := Resting, completed := s.request,
                  controllers := s.controllers[c := Acknowledged(ORIGIN, s.request)])
  {
    RunTwo(s, TickAcknowledge, Poll(c));
  }

  lemma Reports(s: State, c: Cid)
    requires At(s, c).Acknowledged?
    ensures Run(s, [LoadSucceeded(c)])
            == Set(s, c, Idle).(verdicts := s.verdicts + [Verdict(c, At(s, c).id, s.succeeded, |s.results|)])
  {
    assert [LoadSucceeded(c)] == [LoadSucceeded(c)] + [];
    RunStep(s, LoadSucceeded(c), []);
  }

  /** From the start: one controller's teleport fails, another's succeeds, and the first
      controller reports success. */
  lemma WrongReport() returns (steps: seq<Step>)
    ensures var s := Run(Init(), steps);
            |s.verdicts| == 1 && s.verdicts[0].id == 2 && |s.results| == 2 && s.verdicts[0].ok != s.results[0]
  {
    var first := Round(1, false) + [TickAcknowledge, Poll(1)];
    FirstRound();
    var s := Run(Init(), first);
    RunRound(s, 2, true);
    Reports(Run(s, Round(2, true)), 1);
    RunAppend(s, Round(2, true), [LoadSucceeded(1)]);
    RunAppend(Init(), first, Round(2, true) + [LoadSucceeded(1)]);
    steps := first + (Round(2, true) + [LoadSucceeded(1)]);
  }

  lemma FirstRound()
    ensures var s := Run(Init(), Round(1, false) + [TickAcknowledge, Poll(1)]);
            && Inv(s) && At(s, 1) == Acknowledged(ORIGIN, 2) && At(s, 2).Idle?
            && s.request == s.completed == 2 && s.tick.Resting? && s.results == [false] && s.verdicts == []
  {
    InitOk();
    RunRound(Init(), 1, false);
    var t := Run(Init(), Round(1, false));
    Acknowledges(t, 1);
    RunAppend(Init(), Round(1, false), [TickAcknowledge, Poll(1)]);
    RunKeepsInv(Init(), Round(1, false) + [TickAcknowledge, Poll(1)]);
  }

  lemma InitOk()
    ensures Inv(Init())
  {
  }
}
