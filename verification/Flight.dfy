/** Shared credential work of src/authentication.rs: `Flight`, `Waiter` and `Runtime::work`. Callers join the
    unresolved flight of their key or start one; a queued flight nobody waits for any more abandons itself. */
module Flight {
  import opened Wrappers

  /** Where the spawned task stands. Before the source runs it alternates between `Polling` (about to check for
      abandonment in `Flight::cancelled`) and `Asleep` (awaiting a notification, admission or the deadline). */
  datatype Task = Polling | Asleep | Granted | Running | Resolved | Abandoned

  /** `waiters` is None once the flight is closed. `permit` is the permit stored by `abandoned`. `runs` counts
      the times the source was started. */
  datatype Flight = Flight(key: nat, waiters: Option<nat>, permit: bool, task: Task, runs: nat) {
    predicate Unresolved() { !task.Resolved? }
    predicate Open() { waiters.Some? }
    predicate TaskAlive() { !task.Resolved? && !task.Abandoned? }
  }

  function Join(f: Flight): (Flight, bool) {
    match f.waiters
    case Some(count) => (f.(waiters := Some(count + 1)), true)
    case None => (f, false)
  }

  function AbandonIfUnobserved(f: Flight): (Flight, bool) {
    var closed := if f.waiters == Some(0) then f.(waiters := None) else f;
    (closed, closed.waiters.None?)
  }

  function Leave(f: Flight): Flight
    requires f.waiters.Some? && f.waiters.value > 0
  {
    f.(waiters := Some(f.waiters.value - 1), permit := f.permit || f.waiters.value == 1)
  }

  /** The shared part of a flight: the mutex-guarded count and the `abandoned` notification. */
  class FlightState {
    var waiters: Option<nat>
    var permit: bool

    ghost function View(f: Flight): Flight
      reads this
    {
      f.(waiters := waiters, permit := permit)
    }

    constructor ()
      ensures waiters == Some(1) && !permit
    {
      waiters, permit := Some(1), false;
    }

    method JoinFlight(ghost f: Flight) returns (joined: bool)
      modifies this
      ensures (View(f), joined) == Join(old(View(f)))
    {
      if waiters.None? {
        return false;
      }
      waiters := Some(waiters.value + 1);
      return true;
    }

    method AbandonFlight(ghost f: Flight) returns (closed: bool)
      modifies this
      ensures (View(f), closed) == AbandonIfUnobserved(old(View(f)))
    {
      if waiters == Some(0) {
        waiters := None;
      }
      return waiters.None?;
    }

    /** `Drop for Waiter`; a live waiter is counted, so the flight is open. */
    method DropWaiter(ghost f: Flight)
      requires waiters.Some? && waiters.value > 0
      modifies this
      ensures View(f) == Leave(old(View(f)))
    {
      waiters := Some(waiters.value - 1);
      if waiters.value == 0 {
        permit := true;
      }
    }
  }

  // ---- the interleaved system --------------------------------------------------------------------

  datatype Waiter = Waiter(flight: nat, live: bool)

  /** A caller inside `work` that holds the `flights` lock, with the flight it found unresolved, if any. */
  datatype Lookup = Lookup(key: nat, candidate: Option<nat>)

  datatype System = System(flights: seq<Flight>, table: map<nat, nat>, waiters: seq<Waiter>, lock: Option<Lookup>)

  datatype Step =
    | Find(key: nat)                  // lock, forget dead flights, look for an unresolved one
    | JoinFound                       // try to join the candidate
    | Create(reserved: bool)          // start a flight, unless the worker gate refuses
    | LeaveFlight(w: nat)             // a Waiter guard is dropped
    | CheckCancelled(f: nat)
    | WakeCancelled(f: nat)
    | Grant(f: nat)                   // the worker admission arrives
    | Expire(f: nat)                  // the admission deadline passes
    | StartSource(f: nat)             // the last abandonment check, then the source
    | Finish(f: nat)

  const Initial := System([], map[], [], None)

  function LiveWaiters(s: System, f: nat): set<nat> {
    set w: nat | w < |s.waiters| && s.waiters[w] == Waiter(f, true)
  }

  /** Some strong reference is left, so a weak one can be upgraded. */
  predicate Referenced(s: System, f: nat) {
    f < |s.flights| && (s.flights[f].TaskAlive() || LiveWaiters(s, f) != {})
  }

  predicate Enabled(s: System, step: Step) {
    match step
    case Find(_) => s.lock.None?
    case JoinFound => s.lock.Some? && s.lock.value.candidate.Some? && s.lock.value.candidate.value < |s.flights|
    case Create(_) => s.lock.Some? && s.lock.value.candidate.None?
    case LeaveFlight(w) =>
      && w < |s.waiters| && s.waiters[w].live && s.waiters[w].flight < |s.flights|
      && var f := s.flights[s.waiters[w].flight]; f.waiters.Some? && f.waiters.value > 0
    case CheckCancelled(f) => f < |s.flights| && s.flights[f].task.Polling?
    case WakeCancelled(f) => f < |s.flights| && s.flights[f].task.Asleep? && s.flights[f].permit
    case Grant(f) => f < |s.flights| && (s.flights[f].task.Polling? || s.flights[f].task.Asleep?)
    case Expire(f) => f < |s.flights| && (s.flights[f].task.Polling? || s.flights[f].task.Asleep?)
    case StartSource(f) => f < |s.flights| && s.flights[f].task.Granted?
    case Finish(f) => f < |s.flights| && s.flights[f].task.Running?
  }

  function Moved(s: System, f: nat, flight: Flight): System
    requires f < |s.flights|
  {
    s.(flights := s.flights[f := flight])
  }

  function Next(s: System, step: Step): System
    requires Enabled(s, step)
  {
    match step
    case Find(key) =>
      var table := map k | k in s.table && Referenced(s, s.table[k]) :: s.table[k];
      s.(table := table,
         lock := Some(Lookup(key, if key in table && s.flights[table[key]].Unresolved() then Some(table[key])
                                  else None)))
    case JoinFound =>
      var f := s.lock.value.candidate.value;
      var (flight, joined) := Join(s.flights[f]);
      if joined then System(s.flights[f := flight], s.table, s.waiters + [Waiter(f, true)], None)
      else s.(lock := Some(s.lock.value.(candidate := None)))
    case Create(reserved) =>
      var id := |s.flights|;
      if reserved then
        System(s.flights + [Flight(s.lock.value.key, Some(1), false, Polling, 0)], s.table[s.lock.value.key := id],
               s.waiters + [Waiter(id, true)], None)
      else s.(lock := None)
    case LeaveFlight(w) =>
      var f := s.waiters[w].flight;
      Moved(s, f, Leave(s.flights[f])).(waiters := s.waiters[w := Waiter(f, false)])
    case CheckCancelled(f) =>
      var (flight, closed) := AbandonIfUnobserved(s.flights[f]);
      Moved(s, f, flight.(task := if closed then Abandoned else Asleep))
    case WakeCancelled(f) => Moved(s, f, s.flights[f].(permit := false, task := Polling))
    case Grant(f) => Moved(s, f, s.flights[f].(task := Granted))
    case Expire(f) => Moved(s, f, s.flights[f].(task := Resolved))
    case StartSource(f) =>
      var (flight, closed) := AbandonIfUnobserved(s.flights[f]);
      Moved(s, f, if closed then flight.(task := Abandoned)
                  else flight.(task := Running, runs := flight.runs + 1))
    case Finish(f) => Moved(s, f, s.flights[f].(task := Resolved))
  }

  // ---- invariant ---------------------------------------------------------------------------------

  /** An open flight counts its live waiters; a closed one has none, was abandoned, and never ran. */
  ghost predicate Counted(s: System) {
    && (forall f | 0 <= f < |s.flights| ::
          match s.flights[f].waiters
          case Some(count) => count == |LiveWaiters(s, f)| && !s.flights[f].task.Abandoned?
          case None => LiveWaiters(s, f) == {} && s.flights[f].task.Abandoned?)
    && (forall w | 0 <= w < |s.waiters| && s.waiters[w].live :: s.waiters[w].flight < |s.flights|)
  }

  ghost predicate RunsOnce(s: System) {
    forall f | 0 <= f < |s.flights| ::
      match s.flights[f].task
      case Running => s.flights[f].runs == 1
      case Resolved => s.flights[f].runs <= 1
      case _ => s.flights[f].runs == 0
  }

  /** A flight that can still be joined is the one its key leads to. */
  ghost predicate Listed(s: System) {
    && (forall k | k in s.table :: s.table[k] < |s.flights| && s.flights[s.table[k]].key == k)
    && (forall f | 0 <= f < |s.flights| && Joinable(s.flights[f]) ::
          s.flights[f].key in s.table && s.table[s.flights[f].key] == f)
  }

  predicate Joinable(f: Flight) { f.Unresolved() && f.Open() }

  /** Before it creates a flight, the lock holder knows that its key has none left to join. */
  ghost predicate LockSound(s: System) {
    s.lock.Some? ==>
      match s.lock.value.candidate
      case Some(f) => s.lock.value.key in s.table && s.table[s.lock.value.key] == f
      case None => forall f | 0 <= f < |s.flights| && s.flights[f].key == s.lock.value.key :: !Joinable(s.flights[f])
  }

  /** A sleeping task whose last waiter has left has a permit to wake it. */
  ghost predicate NoLostAbandonment(s: System) {
    forall f | 0 <= f < |s.flights| && s.flights[f].task.Asleep? && s.flights[f].waiters == Some(0) ::
      s.flights[f].permit
  }

  ghost predicate Inv(s: System) {
    Counted(s) && RunsOnce(s) && Listed(s) && LockSound(s) && NoLostAbandonment(s)
  }

  lemma FindKeepsInv(s: System, step: Step)
    requires Inv(s) && step.Find? && Enabled(s, step)
    ensures Inv(Next(s, step))
  {
    var t := Next(s, step);
    assert forall f | 0 <= f < |s.flights| :: LiveWaiters(t, f) == LiveWaiters(s, f);
  }

  lemma JoinKeepsCounted(s: System, step: Step)
    requires Counted(s) && step.JoinFound? && Enabled(s, step)
    ensures Counted(Next(s, step))
  {
    var t := Next(s, step);
    var f := s.lock.value.candidate.value;
    forall g | 0 <= g < |s.flights| && g != f
      ensures LiveWaiters(t, g) == LiveWaiters(s, g)
    {
    }
    if s.flights[f].Open() {
      assert LiveWaiters(t, f) == LiveWaiters(s, f) + {|s.waiters|};
    } else {
      assert LiveWaiters(t, f) == LiveWaiters(s, f);
    }
  }

  lemma CreateKeepsCounted(s: System, step: Step)
    requires Counted(s) && step.Create? && Enabled(s, step)
    ensures Counted(Next(s, step))
  {
    var t := Next(s, step);
    var id := |s.flights|;
    forall g | 0 <= g < |s.flights|
      ensures LiveWaiters(t, g) == LiveWaiters(s, g)
    {
    }
    if step.reserved {
      assert LiveWaiters(t, id) == {|s.waiters|};
    }
  }

  lemma LeaveKeepsCounted(s: System, step: Step)
    requires Counted(s) && step.LeaveFlight? && Enabled(s, step)
    ensures Counted(Next(s, step))
  {
    var t := Next(s, step);
    var f := s.waiters[step.w].flight;
    forall g | 0 <= g < |s.flights|
      ensures LiveWaiters(t, g) == if g == f then LiveWaiters(s, g) - {step.w} else LiveWaiters(s, g)
    {
    }
    assert step.w in LiveWaiters(s, f);
  }

  predicate OfTask(step: Step) {
    !step.Find? && !step.JoinFound? && !step.Create? && !step.LeaveFlight?
  }

  lemma TaskKeepsCounted(s: System, step: Step)
    requires Counted(s) && OfTask(step) && Enabled(s, step)
    ensures Counted(Next(s, step))
  {
    var t := Next(s, step);
    forall g | 0 <= g < |s.flights|
      ensures LiveWaiters(t, g) == LiveWaiters(s, g)
    {
    }
  }

  /** A flight that changes without becoming joinable again leaves the table sound. */
  lemma MoveKeepsListed(s: System, t: System, f: nat)
    requires Listed(s) && LockSound(s) && f < |s.flights| == |t.flights|
    requires t.table == s.table && t.flights == s.flights[f := t.flights[f]]
    requires t.flights[f].key == s.flights[f].key && (Joinable(t.flights[f]) ==> Joinable(s.flights[f]))
    ensures Listed(t)
    ensures t.lock == s.lock || t.lock == None ==> LockSound(t)
  {
  }

  lemma StepKeepsListed(s: System, step: Step)
    requires Listed(s) && LockSound(s) && Enabled(s, step) && !step.Find?
    ensures Listed(Next(s, step)) && LockSound(Next(s, step))
  {
    var t := Next(s, step);
    if step.JoinFound? {
      MoveKeepsListed(s, t, s.lock.value.candidate.value);
    } else if step.LeaveFlight? {
      MoveKeepsListed(s, t, s.waiters[step.w].flight);
    } else if !step.Create? {
      MoveKeepsListed(s, t, step.f);
    }
  }

  lemma StepKeepsRuns(s: System, step: Step)
    requires RunsOnce(s) && NoLostAbandonment(s) && Enabled(s, step)
    ensures RunsOnce(Next(s, step)) && NoLostAbandonment(Next(s, step))
  {
  }

  lemma StepKeepsInv(s: System, step: Step)
    requires Inv(s) && Enabled(s, step)
    ensures Inv(Next(s, step))
  {
    match step
    case Find(_) => FindKeepsInv(s, step);
    case JoinFound => JoinKeepsCounted(s, step); StepKeepsListed(s, step); StepKeepsRuns(s, step);
    case Create(_) => CreateKeepsCounted(s, step); StepKeepsListed(s, step); StepKeepsRuns(s, step);
    case LeaveFlight(_) => LeaveKeepsCounted(s, step); StepKeepsListed(s, step); StepKeepsRuns(s, step);
    case _ => TaskKeepsCounted(s, step); StepKeepsListed(s, step); StepKeepsRuns(s, step);
  }

  ghost predicate Legal(s: System, steps: seq<Step>)
    decreases |steps|
  {
    steps == [] || (Enabled(s, steps[0]) && Legal(Next(s, steps[0]), steps[1..]))
  }

  ghost function Run(s: System, steps: seq<Step>): System
    requires Legal(s, steps)
    decreases |steps|
  {
    if steps == [] then s else Run(Next(s, steps[0]), steps[1..])
  }

  lemma {:induction false} RunKeepsInv(s: System, steps: seq<Step>)
    requires Inv(s) && Legal(s, steps)
    ensures Inv(Run(s, steps))
    decreases |steps|
  {
    if steps != [] {
      StepKeepsInv(s, steps[0]);
      RunKeepsInv(Next(s, steps[0]), steps[1..]);
    }
  }

  /** In every reachable state a key has at most one flight that is unresolved and joinable, so two runs of its
      source never overlap, and each flight's source ran at most once. */
  lemma SingleFlight(steps: seq<Step>, f: nat, g: nat)
    requires Legal(Initial, steps)
    requires f < |Run(Initial, steps).flights| && g < |Run(Initial, steps).flights|
    ensures var s := Run(Initial, steps);
      && (Joinable(s.flights[f]) && Joinable(s.flights[g]) && s.flights[f].key == s.flights[g].key ==> f == g)
      && (s.flights[f].task.Running? && s.flights[g].task.Running? && s.flights[f].key == s.flights[g].key ==> f == g)
      && s.flights[f].runs <= 1
  {
    RunKeepsInv(Initial, steps);
  }

  /** Every caller's work is counted: a live waiter's flight is open and was not abandoned under it, so dropping
      the waiter is always possible, and an abandoned flight never ran and has no waiter left. */
  lemma WaitersAreKept(steps: seq<Step>, w: nat)
    requires Legal(Initial, steps)
    requires w < |Run(Initial, steps).waiters| && Run(Initial, steps).waiters[w].live
    ensures var s := Run(Initial, steps);
      var f := s.waiters[w].flight;
      && Enabled(s, LeaveFlight(w))
      && s.flights[f].Open() && !s.flights[f].task.Abandoned?
      && s.flights[f].waiters == Some(|LiveWaiters(s, f)|)
  {
    RunKeepsInv(Initial, steps);
    var s := Run(Initial, steps);
    assert w in LiveWaiters(s, s.waiters[w].flight);
  }

  /** Closing is final: no later step reopens an abandoned flight or starts its source. */
  lemma {:induction false} ClosedStaysClosed(s: System, steps: seq<Step>, f: nat)
    requires Inv(s) && Legal(s, steps) && f < |s.flights| && !s.flights[f].Open()
    ensures f < |Run(s, steps).flights| && !Run(s, steps).flights[f].Open() && Run(s, steps).flights[f].runs == 0
    decreases |steps|
  {
    if steps != [] {
      StepKeepsInv(s, steps[0]);
      ClosedStaysClosed(Next(s, steps[0]), steps[1..], f);
    }
  }

  lemma OneStep(s: System, a: Step)
    requires Enabled(s, a)
    ensures Legal(s, [a]) && Run(s, [a]) == Next(s, a)
  {
    assert [a][1..] == [];
    assert Legal(Next(s, a), []) && Run(Next(s, a), []) == Next(s, a);
  }

  lemma TwoSteps(s: System, a: Step, b: Step)
    requires Enabled(s, a) && Enabled(Next(s, a), b)
    ensures Legal(s, [a, b]) && Run(s, [a, b]) == Next(Next(s, a), b)
  {
    assert [a, b][1..] == [b];
    OneStep(Next(s, a), b);
  }

  /** A queued flight without waiters gives its worker reservation up by its own steps. */
  lemma UnobservedGivesUp(s: System, f: nat) returns (steps: seq<Step>)
    requires Inv(s) && f < |s.flights| && s.flights[f].waiters == Some(0)
    requires s.flights[f].task.Polling? || s.flights[f].task.Asleep? || s.flights[f].task.Granted?
    ensures Legal(s, steps) && |steps| <= 2
    ensures forall step | step in steps :: step in {WakeCancelled(f), CheckCancelled(f), StartSource(f)}
    ensures f < |Run(s, steps).flights| && Run(s, steps).flights[f].task.Abandoned?
  {
    var last := if s.flights[f].task.Granted? then StartSource(f) else CheckCancelled(f);
    if s.flights[f].task.Asleep? {
      steps := [WakeCancelled(f), last];
      TwoSteps(s, WakeCancelled(f), last);
    } else {
      steps := [last];
      OneStep(s, last);
    }
  }

  // ---- what a caller gets ------------------------------------------------------------------------

  /** Every look-up forgets the flights that are over and have no waiter left, and no others. */
  lemma LookupForgets(s: System, key: nat, k: nat)
    requires Inv(s) && s.lock.None? && k in s.table
    ensures var f := s.table[k];
            && Enabled(s, Find(key))
            && (k in Next(s, Find(key)).table <==>
                  || (!s.flights[f].task.Resolved? && !s.flights[f].task.Abandoned?)
                  || exists w :: 0 <= w < |s.waiters| && s.waiters[w] == Waiter(f, true))
            && (k in Next(s, Find(key)).table ==> Next(s, Find(key)).table[k] == f)
  {
    var f := s.table[k];
    if w :| 0 <= w < |s.waiters| && s.waiters[w] == Waiter(f, true) {
      assert w in LiveWaiters(s, f);
    } else {
      assert LiveWaiters(s, f) == {};
    }
  }

  /** A caller whose key has an unresolved flight that is still open joins it: the flight counts one waiter more, and no
      other is started. */
  lemma LookupJoins(s: System, f: nat)
    requires Inv(s) && s.lock.None? && f < |s.flights|
    requires !s.flights[f].task.Resolved? && s.flights[f].waiters.Some?
    ensures var steps, flight := [Find(s.flights[f].key), JoinFound], s.flights[f];
            && Legal(s, steps)
            && Run(s, steps).flights == s.flights[f := flight.(waiters := Some(flight.waiters.value + 1))]
            && Run(s, steps).waiters == s.waiters + [Waiter(f, true)] && Run(s, steps).lock.None?
  {
    assert Joinable(s.flights[f]);
    TwoSteps(s, Find(s.flights[f].key), JoinFound);
  }

  /** A caller whose key has none starts one, unless the worker gate refuses. */
  lemma LookupStarts(s: System, key: nat)
    requires Inv(s) && s.lock.None?
    requires forall f | 0 <= f < |s.flights| && s.flights[f].key == key ::
               s.flights[f].task.Resolved? || s.flights[f].waiters.None?
    ensures var id := |s.flights|;
            var steps := [Find(key), Create(true)];
            && Legal(s, steps)
            && Run(s, steps).flights == s.flights + [Flight(key, Some(1), false, Polling, 0)]
            && Run(s, steps).waiters == s.waiters + [Waiter(id, true)] && Run(s, steps).lock.None?
  {
    TwoSteps(s, Find(key), Create(true));
  }

  /** Once admitted, a flight somebody waits for needs nothing but its own turns to run its source and resolve; until
      then its deadline can always resolve it. */
  lemma FlightRuns(s: System, f: nat)
    requires f < |s.flights| && s.flights[f].waiters.Some? && s.flights[f].waiters.value > 0
    requires s.flights[f].task.Polling? || s.flights[f].task.Asleep?
    ensures Enabled(s, Grant(f)) && Enabled(s, Expire(f)) && Next(s, Expire(f)).flights[f].task.Resolved?
    ensures Legal(Next(s, Grant(f)), [StartSource(f), Finish(f)])
    ensures Run(Next(s, Grant(f)), [StartSource(f), Finish(f)]).flights ==
            s.flights[f := s.flights[f].(task := Resolved, runs := s.flights[f].runs + 1)]
  {
    TwoSteps(Next(s, Grant(f)), StartSource(f), Finish(f));
  }

  /** A wake-up uses up its notification: until another waiter leaves, there is none to wake the task again. */
  lemma WokenOnce(s: System, f: nat, steps: seq<Step>)
    requires Enabled(s, WakeCancelled(f)) && Legal(Next(s, WakeCancelled(f)), steps)
    requires forall step | step in steps :: !step.LeaveFlight?
    ensures !Enabled(Run(Next(s, WakeCancelled(f)), steps), WakeCancelled(f))
  {
    NotWithoutLeaving(Next(s, WakeCancelled(f)), f, steps);
  }

  lemma {:induction false} NotWithoutLeaving(s: System, f: nat, steps: seq<Step>)
    requires f < |s.flights| && !s.flights[f].permit && Legal(s, steps)
    requires forall step | step in steps :: !step.LeaveFlight?
    ensures f < |Run(s, steps).flights| && !Run(s, steps).flights[f].permit
    decreases |steps|
  {
    if steps != [] {
      assert !steps[0].LeaveFlight?;
      NotWithoutLeaving(Next(s, steps[0]), f, steps[1..]);
    }
  }
}
