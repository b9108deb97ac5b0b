/** Credential flights over the worker gate they queue in (`Runtime::work` of src/authentication.rs): one is started
    only with a reservation, its source runs only while its admission is held, and whatever ends it gives the
    reservation back. */
module Workers {
  import opened Wrappers
  import Flight
  import Gate

  /** Flight `f` holds guard `f` of the gate. `expired` are the tasks whose deadline has ended their select. */
  datatype System = System(flights: Flight.System, gate: Gate.System, expired: set<nat>)

  datatype Step =
    | Work(step: Flight.Step)               // everything of a flight but its creation
    | Reserve(limit: nat, pending: nat)     // the creation, with the gate's answer
    | Worker(turn: Gate.Step)               // everything of the gate but an arrival
    | TimeOut(f: nat)

  const Initial := System(Flight.Initial, Gate.Initial, {})

  predicate Task(s: System, f: nat, task: Flight.Task) {
    f < |s.flights.flights| && s.flights.flights[f].task == task
  }

  predicate Holds(s: System, f: nat) {
    f < |s.gate.guards| && s.gate.guards[f].phase.Admitted?
  }

  predicate GaveBack(s: System, f: nat) {
    f < |s.gate.guards| && s.gate.guards[f].phase.Dropped?
  }

  /** The task is in its select: it polls the admission, the deadline and the abandonment. */
  predicate Selecting(s: System, f: nat) {
    (Task(s, f, Flight.Polling) || Task(s, f, Flight.Asleep)) && f !in s.expired
  }

  /** The admission is dropped with the select that has expired, with the abandoned task, or by the source's closure as
      it returns, before the result is sent. */
  predicate Leaves(s: System, f: nat) {
    f in s.expired || Task(s, f, Flight.Abandoned) || Task(s, f, Flight.Running)
  }

  predicate Enabled(s: System, step: Step) {
    match step
    case Work(inner) =>
      && Flight.Enabled(s.flights, inner)
      && (match inner
          case Create(_) => false
          case CheckCancelled(f) => f !in s.expired
          case WakeCancelled(f) => f !in s.expired
          case Grant(f) => f !in s.expired && Holds(s, f)
          case Expire(f) => f in s.expired && GaveBack(s, f)
          case Finish(f) => GaveBack(s, f)
          case _ => true)
    case Reserve(_, _) => Flight.Enabled(s.flights, Flight.Create(true))
    case Worker(inner) =>
      && Gate.Enabled(s.gate, inner)
      && (match inner
          case Arrive(_, _) => false
          case Drop(f) => Leaves(s, f)
          case Deliver(_) => true
          case Enable(f) => Selecting(s, f)
          case Check(f) => Selecting(s, f)
          case Wake(f) => Selecting(s, f))
    case TimeOut(f) => Selecting(s, f)
  }

  function Next(s: System, step: Step): System
    requires Enabled(s, step)
  {
    match step
    case Work(inner) => s.(flights := Flight.Next(s.flights, inner))
    case Reserve(limit, pending) =>
      var gate := Gate.Next(s.gate, Gate.Arrive(limit, pending));
      var reserved := |gate.guards| > |s.gate.guards|;
      s.(flights := Flight.Next(s.flights, Flight.Create(reserved)), gate := gate)
    case Worker(inner) => s.(gate := Gate.Next(s.gate, inner))
    case TimeOut(f) => s.(expired := s.expired + {f})
  }

  /** A step of a runtime whose callers stay within `workers`, and in which no ticket wraps onto a live waiter. */
  predicate Within(s: System, step: Step, workers: nat) {
    step.Reserve? ==> step.limit <= workers && Gate.TicketFree(s.gate, Gate.Arrive(step.limit, step.pending))
  }

  ghost predicate Legal(s: System, steps: seq<Step>, workers: nat)
    decreases |steps|
  {
    steps == [] ||
    (Enabled(s, steps[0]) && Within(s, steps[0], workers) && Legal(Next(s, steps[0]), steps[1..], workers))
  }

  ghost function Run(s: System, steps: seq<Step>, workers: nat): System
    requires Legal(s, steps, workers)
    decreases |steps|
  {
    if steps == [] then s else Run(Next(s, steps[0]), steps[1..], workers)
  }

  // ---- invariant ---------------------------------------------------------------------------------

  /** How far a task has come and what its guard is doing. */
  predicate Agrees(task: Flight.Task, phase: Gate.Phase, expired: bool) {
    match task
    case Polling => expired || !phase.Dropped?
    case Asleep => expired || !phase.Dropped?
    case Granted => phase.Admitted? && !expired
    case Running => (phase.Admitted? || phase.Dropped?) && !expired
    case Resolved => phase.Dropped?
    case Abandoned => !expired
  }

  ghost predicate Paired(s: System) {
    && |s.flights.flights| == |s.gate.guards|
    && (forall f | f in s.expired :: f < |s.flights.flights|)
    && (forall f: nat | f < |s.gate.guards| ::
          Agrees(s.flights.flights[f].task, s.gate.guards[f].phase, f in s.expired))
  }

  ghost predicate Inv(s: System, workers: nat) {
    && Flight.Inv(s.flights)
    && Gate.Inv(s.gate)
    && Gate.Within(s.gate.gate, workers)
    && Paired(s)
  }

  /** A step of a flight moves one task at most. */
  lemma WorkMovesOne(s: Flight.System, step: Flight.Step, f: nat)
    requires Flight.Enabled(s, step) && !step.Create? && f < |s.flights|
    ensures |Flight.Next(s, step).flights| == |s.flights|
    ensures Flight.OfTask(step) && step.f != f ==> Flight.Next(s, step).flights[f].task == s.flights[f].task
    ensures !Flight.OfTask(step) ==> Flight.Next(s, step).flights[f].task == s.flights[f].task
  {
  }

  /** A step of the gate moves one guard's phase at most. */
  lemma WorkerMovesOne(s: Gate.System, step: Gate.Step, f: nat)
    requires Gate.Enabled(s, step) && !step.Arrive? && f < |s.guards|
    ensures |Gate.Next(s, step).guards| == |s.guards|
    ensures step.g != f ==> Gate.Next(s, step).guards[f].phase == s.guards[f].phase
    ensures step.Deliver? ==> Gate.Next(s, step).guards[f].phase.Dropped? == s.guards[f].phase.Dropped?
    ensures step.Deliver? ==> Gate.Next(s, step).guards[f].phase.Admitted? == s.guards[f].phase.Admitted?
    ensures step.Enable? || step.Check? || step.Wake? ==>
              (!s.guards[f].phase.Dropped? ==> !Gate.Next(s, step).guards[f].phase.Dropped?)
  {
  }

  lemma WorkKeepsPaired(s: System, step: Step)
    requires Paired(s) && step.Work? && Enabled(s, step)
    ensures Paired(Next(s, step))
  {
    var t := Next(s, step);
    forall f: nat | f < |s.gate.guards|
      ensures |t.flights.flights| == |s.gate.guards|
      ensures Agrees(t.flights.flights[f].task, t.gate.guards[f].phase, f in t.expired)
    {
      assert Agrees(s.flights.flights[f].task, s.gate.guards[f].phase, f in s.expired);
      WorkMovesOne(s.flights, step.step, f);
    }
    SameFlights(s.flights, step.step);
  }

  lemma SameFlights(s: Flight.System, step: Flight.Step)
    requires Flight.Enabled(s, step) && !step.Create?
    ensures |Flight.Next(s, step).flights| == |s.flights|
  {
  }

  lemma WorkerKeepsPaired(s: System, step: Step)
    requires Paired(s) && step.Worker? && Enabled(s, step)
    ensures Paired(Next(s, step))
  {
    var t := Next(s, step);
    forall f: nat | f < |s.gate.guards|
      ensures |t.gate.guards| == |s.gate.guards|
      ensures Agrees(t.flights.flights[f].task, t.gate.guards[f].phase, f in t.expired)
    {
      assert Agrees(s.flights.flights[f].task, s.gate.guards[f].phase, f in s.expired);
      WorkerMovesOne(s.gate, step.turn, f);
    }
    SameGuards(s.gate, step.turn);
  }

  lemma SameGuards(s: Gate.System, step: Gate.Step)
    requires Gate.Enabled(s, step) && !step.Arrive?
    ensures |Gate.Next(s, step).guards| == |s.guards|
  {
  }

  lemma ReserveKeepsPaired(s: System, step: Step)
    requires Paired(s) && step.Reserve? && Enabled(s, step)
    ensures Paired(Next(s, step))
  {
  }

  lemma StepKeepsPaired(s: System, step: Step)
    requires Paired(s) && Enabled(s, step)
    ensures Paired(Next(s, step))
  {
    match step
    case Work(_) => WorkKeepsPaired(s, step);
    case Reserve(_, _) => ReserveKeepsPaired(s, step);
    case Worker(_) => WorkerKeepsPaired(s, step);
    case TimeOut(f) =>
      assert Agrees(s.flights.flights[f].task, s.gate.guards[f].phase, false);
  }

  /** Every interleaving of callers, tasks, deadlines and the gate keeps both components sound and paired. */
  lemma StepKeepsInv(s: System, step: Step, workers: nat)
    requires Inv(s, workers) && Enabled(s, step) && Within(s, step, workers)
    ensures Inv(Next(s, step), workers)
  {
    StepKeepsPaired(s, step);
    match step
    case Work(inner) => Flight.StepKeepsInv(s.flights, inner);
    case Reserve(limit, pending) => ReserveKeepsParts(s, step, workers);
    case Worker(inner) =>
      Gate.StepKeepsInv(s.gate, inner);
      Gate.StepKeepsWithin(s.gate, inner, workers);
    case TimeOut(_) =>
  }

  lemma ReserveKeepsParts(s: System, step: Step, workers: nat)
    requires step.Reserve? && Enabled(s, step) && Within(s, step, workers)
    requires Flight.Inv(s.flights) && Gate.Inv(s.gate) && Gate.Within(s.gate.gate, workers)
    ensures var t := Next(s, step);
      Flight.Inv(t.flights) && Gate.Inv(t.gate) && Gate.Within(t.gate.gate, workers)
  {
    var arrive := Gate.Arrive(step.limit, step.pending);
    Gate.StepKeepsInv(s.gate, arrive);
    Gate.StepKeepsWithin(s.gate, arrive, workers);
    Flight.StepKeepsInv(s.flights, Flight.Create(|Gate.Next(s.gate, arrive).guards| > |s.gate.guards|));
  }

  lemma {:induction false} RunKeepsInv(s: System, steps: seq<Step>, workers: nat)
    requires Inv(s, workers) && Legal(s, steps, workers)
    ensures Inv(Run(s, steps, workers), workers)
    decreases |steps|
  {
    if steps != [] {
      StepKeepsInv(s, steps[0], workers);
      RunKeepsInv(Next(s, steps[0]), steps[1..], workers);
    }
  }

  lemma InitialInv(workers: nat)
    ensures Inv(Initial, workers)
  {
    assert Gate.AdmittedGuards(Initial.gate.guards) == {};
  }

  // ---- how many sources run ----------------------------------------------------------------------

  /** The flights whose source is running: a source that has returned has given its admission back. */
  function Sources(s: System): set<nat> {
    set f: nat | f < |s.flights.flights| && Task(s, f, Flight.Running) && Holds(s, f)
  }

  lemma SourcesAreAdmitted(s: System, workers: nat)
    requires Gate.Inv(s.gate) && Gate.Within(s.gate.gate, workers)
    ensures |Sources(s)| <= s.gate.gate.active <= workers
  {
    var admitted := Gate.AdmittedGuards(s.gate.guards);
    assert s.gate.gate.active == |admitted|;
    assert Sources(s) <= admitted;
    SubsetCardinality(Sources(s), admitted);
  }

  /** Over all interleavings, at most `credential_workers` sources run at once. */
  lemma WorkerBound(steps: seq<Step>, workers: nat)
    requires Legal(Initial, steps, workers)
    ensures |Sources(Run(Initial, steps, workers))| <= workers
  {
    InitialInv(workers);
    RunKeepsInv(Initial, steps, workers);
    SourcesAreAdmitted(Run(Initial, steps, workers), workers);
  }

  /** A source never runs without its admission until it returns, and only then is it given back. */
  lemma SourceStartsAdmitted(s: System, f: nat, workers: nat)
    requires Inv(s, workers) && Enabled(s, Work(Flight.StartSource(f)))
    requires s.flights.flights[f].waiters != Some(0) && s.flights.flights[f].Open()
    ensures f in Sources(Next(s, Work(Flight.StartSource(f))))
  {
    assert Agrees(s.flights.flights[f].task, s.gate.guards[f].phase, f in s.expired);
  }

  // ---- an abandoned reservation ------------------------------------------------------------------

  ghost predicate Queued(gate: Gate.State, f: nat) {
    exists w :: w in gate.waiting && w.guard == f
  }

  /** Nobody can admit an abandoned flight that still waits: in every run its guard waits or has been dropped. */
  lemma {:induction false} AbandonedIsNeverAdmitted(s: System, steps: seq<Step>, workers: nat, f: nat)
    requires Inv(s, workers) && Legal(s, steps, workers) && Task(s, f, Flight.Abandoned)
    requires f !in s.gate.admissions
    ensures Task(Run(s, steps, workers), f, Flight.Abandoned) && f !in Run(s, steps, workers).gate.admissions
    decreases |steps|
  {
    if steps != [] {
      StepKeepsInv(s, steps[0], workers);
      AbandonedStays(s, steps[0], f);
      AbandonedIsNeverAdmitted(Next(s, steps[0]), steps[1..], workers, f);
    }
  }

  lemma AbandonedStays(s: System, step: Step, f: nat)
    requires Paired(s) && Enabled(s, step) && Task(s, f, Flight.Abandoned)
    ensures Task(Next(s, step), f, Flight.Abandoned)
    ensures f !in s.gate.admissions ==> f !in Next(s, step).gate.admissions
  {
    if step.Work? {
      WorkMovesOne(s.flights, step.step, f);
    }
  }

  /** Its own drop is enabled as long as it has not happened, and takes the reservation out of the queue for good. */
  lemma AbandonedLeavesQueue(s: System, f: nat, workers: nat)
    requires Inv(s, workers) && Task(s, f, Flight.Abandoned)
    ensures GaveBack(s, f) ==> !Queued(s.gate.gate, f)
    ensures !GaveBack(s, f) ==> Enabled(s, Worker(Gate.Drop(f)))
    ensures !GaveBack(s, f) ==>
      !Queued(Next(s, Worker(Gate.Drop(f))).gate.gate, f) && GaveBack(Next(s, Worker(Gate.Drop(f))), f)
  {
    if !GaveBack(s, f) {
      StepKeepsInv(s, Worker(Gate.Drop(f)), workers);
      DroppedIsNotQueued(Next(s, Worker(Gate.Drop(f))), f);
    } else {
      DroppedIsNotQueued(s, f);
    }
  }

  lemma DroppedIsNotQueued(s: System, f: nat)
    requires Gate.Inv(s.gate) && GaveBack(s, f)
    ensures !Queued(s.gate.gate, f)
  {
  }

  lemma {:induction false} LegalExtends(s: System, steps: seq<Step>, step: Step, workers: nat)
    requires Legal(s, steps, workers)
    requires Enabled(Run(s, steps, workers), step) && Within(Run(s, steps, workers), step, workers)
    ensures Legal(s, steps + [step], workers)
    ensures Run(s, steps + [step], workers) == Next(Run(s, steps, workers), step)
    decreases |steps|
  {
    var all := steps + [step];
    if steps == [] {
      assert all[1..] == [] && Legal(Next(s, step), [], workers);
    } else {
      assert all[0] == steps[0] && all[1..] == steps[1..] + [step];
      LegalExtends(Next(s, steps[0]), steps[1..], step, workers);
    }
  }

  predicate Unobserved(s: System, f: nat) {
    Selecting(s, f) && s.flights.flights[f].waiters == Some(0)
  }

  /** The wake-up that its last waiter left for a sleeping task. */
  lemma UnobservedWakes(s: System, f: nat, workers: nat)
    requires Inv(s, workers) && Unobserved(s, f) && Task(s, f, Flight.Asleep)
    ensures Enabled(s, Work(Flight.WakeCancelled(f)))
    ensures var t := Next(s, Work(Flight.WakeCancelled(f)));
      Unobserved(t, f) && Task(t, f, Flight.Polling)
  {
  }

  lemma UnobservedAbandons(s: System, f: nat)
    requires Unobserved(s, f) && Task(s, f, Flight.Polling)
    ensures Enabled(s, Work(Flight.CheckCancelled(f)))
    ensures Task(Next(s, Work(Flight.CheckCancelled(f))), f, Flight.Abandoned)
  {
  }

  lemma AbandonedDrops(s: System, f: nat, workers: nat) returns (steps: seq<Step>)
    requires Inv(s, workers) && Task(s, f, Flight.Abandoned)
    ensures Legal(s, steps, workers) && (steps == [] || steps == [Worker(Gate.Drop(f))])
    ensures Task(Run(s, steps, workers), f, Flight.Abandoned) && !Queued(Run(s, steps, workers).gate.gate, f)
  {
    AbandonedLeavesQueue(s, f, workers);
    steps := [];
    if !GaveBack(s, f) {
      LegalExtends(s, [], Worker(Gate.Drop(f)), workers);
      steps := [] + [Worker(Gate.Drop(f))];
    }
  }

  /** A flight that waits for a worker while nobody waits for it leaves the gate's queue by at most three steps of its
      own: the wake-up its last waiter left, the check that abandons it, and the drop of its reservation. */
  lemma {:induction false} UnobservedLeavesQueue(s: System, f: nat, workers: nat) returns (steps: seq<Step>)
    requires Inv(s, workers) && Unobserved(s, f)
    ensures Legal(s, steps, workers) && |steps| <= if Task(s, f, Flight.Asleep) then 3 else 2
    ensures forall step | step in steps ::
      step in {Work(Flight.WakeCancelled(f)), Work(Flight.CheckCancelled(f)), Worker(Gate.Drop(f))}
    ensures Task(Run(s, steps, workers), f, Flight.Abandoned)
    ensures !Queued(Run(s, steps, workers).gate.gate, f)
    decreases if Task(s, f, Flight.Asleep) then 1 else 0
  {
    var rest: seq<Step>;
    var step := Work(if Task(s, f, Flight.Asleep) then Flight.WakeCancelled(f) else Flight.CheckCancelled(f));
    if Task(s, f, Flight.Asleep) {
      UnobservedWakes(s, f, workers);
      StepKeepsInv(s, step, workers);
      rest := UnobservedLeavesQueue(Next(s, step), f, workers);
    } else {
      UnobservedAbandons(s, f);
      StepKeepsInv(s, step, workers);
      rest := AbandonedDrops(Next(s, step), f, workers);
    }
    steps := [step] + rest;
    assert steps[1..] == rest;
  }

  // ---- progress ----------------------------------------------------------------------------------

  /** A task always has a step of its own. In its select it runs the turns of its admission, takes it once it is there
      and can time out; then it gives the admission back before it resolves; admitted it starts its source, which gives
      the admission back before it finishes. */
  lemma TaskGoesOn(s: System, f: nat)
    requires Paired(s) && f < |s.flights.flights|
    ensures var task, phase := s.flights.flights[f].task, s.gate.guards[f].phase;
      match task
      case Granted => Enabled(s, Work(Flight.StartSource(f)))
      case Running => if phase.Dropped? then Enabled(s, Work(Flight.Finish(f))) else Enabled(s, Worker(Gate.Drop(f)))
      case Resolved => phase.Dropped?
      case Abandoned => phase.Dropped? || Enabled(s, Worker(Gate.Drop(f)))
      case _ =>
        if f in s.expired then
          if phase.Dropped? then Enabled(s, Work(Flight.Expire(f))) else Enabled(s, Worker(Gate.Drop(f)))
        else
          && Enabled(s, TimeOut(f)) && f in Next(s, TimeOut(f)).expired
          && match phase
             case Idle => Enabled(s, Worker(Gate.Enable(f)))
             case Registered(_) => Enabled(s, Worker(Gate.Check(f)))
             case Parked(signalled) => signalled ==> Enabled(s, Worker(Gate.Wake(f)))
             case Admitted => Enabled(s, Work(Flight.Grant(f)))
             case Dropped => false
  {
    assert Agrees(s.flights.flights[f].task, s.gate.guards[f].phase, f in s.expired);
  }

  /** Callers and notifications are not held up by tasks: they can do here what they can do alone. */
  lemma CallersGoOn(s: System, step: Flight.Step, g: nat, limit: nat, pending: nat)
    ensures !Flight.OfTask(step) && !step.Create? ==> (Enabled(s, Work(step)) <==> Flight.Enabled(s.flights, step))
    ensures Enabled(s, Worker(Gate.Deliver(g))) <==> Gate.Enabled(s.gate, Gate.Deliver(g))
    ensures Enabled(s, Reserve(limit, pending)) <==> s.flights.lock.Some? && s.flights.lock.value.candidate.None?
  {
  }
}
