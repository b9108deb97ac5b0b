/** The idle-connection pool of src/authentication.rs. Its state has its own lock; the gate's `active` count is
    only read from inside it, so acquire, release, drop and expiry interleave freely with admissions. */
module Pool {
  import opened Wrappers
  import Gate

  datatype Idle = Idle(generation: nat, connection: nat, established: nat, expiresAt: nat, owner: nat)

  /** The clock reading and the cleanup owners alive at one critical section. */
  datatype Now = Now(instant: nat, alive: set<nat>)

  predicate Fresh(idle: Idle, now: Now) {
    idle.owner in now.alive && idle.expiresAt > now.instant
  }

  // `Instant::elapsed` saturates at zero.
  function Elapsed(since: nat, now: nat): nat {
    if now >= since then now - since else 0
  }

  predicate Live(idle: Idle, lifetime: nat, now: Now) {
    Fresh(idle, now) && Elapsed(idle.established, now.instant) < lifetime
  }

  /** `Vec::retain`. */
  function Sieve(idle: seq<Idle>, keep: Idle -> bool): seq<Idle> {
    if idle == [] then []
    else Sieve(idle[..|idle| - 1], keep) + (if keep(idle[|idle| - 1]) then [idle[|idle| - 1]] else [])
  }

  function IsLive(lifetime: nat, now: Now): Idle -> bool {
    (c: Idle) => Live(c, lifetime, now)
  }

  function Outlasts(instant: nat): Idle -> bool {
    (c: Idle) => c.expiresAt > instant
  }

  function OwnedByOthers(owner: nat): Idle -> bool {
    (c: Idle) => c.owner != owner
  }

  /** The last index of a connection of this generation, or -1. */
  function LastOf(idle: seq<Idle>, generation: nat): (position: int)
    ensures -1 <= position < |idle|
    ensures position >= 0 ==> idle[position].generation == generation
    ensures forall i | position < i < |idle| :: idle[i].generation != generation
  {
    if idle == [] then -1
    else if idle[|idle| - 1].generation == generation then |idle| - 1
    else LastOf(idle[..|idle| - 1], generation)
  }

  function SwapRemove(idle: seq<Idle>, position: nat): seq<Idle>
    requires position < |idle|
  {
    var last := |idle| - 1;
    if position == last then idle[..last] else idle[..last][position := idle[last]]
  }

  function Truncate(idle: seq<Idle>, length: nat): seq<Idle> {
    if |idle| <= length then idle else idle[..length]
  }

  function Spare(capacity: nat, active: int): nat {
    if active <= capacity then if active >= 0 then capacity - active else capacity else 0
  }

  /** The critical section of `acquire_inner`: what stays idle and what the caller takes. */
  function Take(idle: seq<Idle>, request: Request, active: int, now: Now): (seq<Idle>, Option<Idle>) {
    var usable := Sieve(idle, IsLive(request.lifetime, now));
    var position := if request.newOnly then -1 else LastOf(usable, request.generation);
    if position < 0 then (Truncate(usable, Spare(request.capacity, active)), None)
    else (Truncate(SwapRemove(usable, position), Spare(request.capacity, active)), Some(usable[position]))
  }

  datatype Request = Request(capacity: nat, generation: nat, newOnly: bool, lifetime: nat)

  predicate Parks(idle: seq<Idle>, returned: Idle, capacity: nat, active: int, now: Now) {
    Fresh(returned, now) && |idle| + active <= capacity
  }

  method Retain(idle: seq<Idle>, keep: Idle -> bool) returns (kept: seq<Idle>)
    ensures kept == Sieve(idle, keep)
  {
    kept := [];
    var i := 0;
    while i < |idle|
      invariant 0 <= i <= |idle|
      invariant kept == Sieve(idle[..i], keep)
    {
      assert idle[..i + 1][..i] == idle[..i];
      if keep(idle[i]) {
        kept := kept + [idle[i]];
      }
      i := i + 1;
    }
    assert idle[..|idle|] == idle;
  }

  class PoolState {
    var idle: seq<Idle>

    constructor ()
      ensures idle == []
    {
      idle := [];
    }

    /** `active` is the gate's count, read while this lock is held. */
    method Acquire(request: Request, active: int, now: Now) returns (selected: Option<Idle>)
      modifies this
      ensures (idle, selected) == Take(old(idle), request, active, now)
    {
      idle := Retain(idle, IsLive(request.lifetime, now));
      var spare := Spare(request.capacity, active);
      selected := None;
      if !request.newOnly {
        var position := LastOf(idle, request.generation);
        if position >= 0 {
          selected := Some(idle[position]);
          idle := SwapRemove(idle, position);
        }
      }
      idle := Truncate(idle, spare);
    }

    /** `Lease::release`: the lease's own admission is still counted in `active`. */
    method Return(returned: Idle, capacity: nat, active: int, now: Now) returns (parked: bool)
      modifies this
      ensures parked == Parks(old(idle), returned, capacity, active, now)
      ensures idle == if parked then old(idle) + [returned] else old(idle)
      // Once the admission is dropped too, a parked connection fits the returner's own capacity.
      ensures parked ==> |idle| + (active - 1) <= capacity
    {
      parked := false;
      if returned.owner in now.alive && returned.expiresAt > now.instant && |idle| + active <= capacity {
        idle := idle + [returned];
        parked := true;
      }
    }

    method ExpireIdle(instant: nat)
      modifies this
      ensures idle == Sieve(old(idle), Outlasts(instant))
    {
      idle := Retain(idle, Outlasts(instant));
    }

    method EvictOwner(owner: nat)
      modifies this
      ensures idle == Sieve(old(idle), OwnedByOthers(owner))
    {
      idle := Retain(idle, OwnedByOthers(owner));
    }
  }

  // ---- what a sweep keeps ------------------------------------------------------------------------

  predicate Rising(at: seq<nat>, bound: nat) {
    && (forall k :: 0 <= k < |at| ==> at[k] < bound)
    && (forall k, l :: 0 <= k < l < |at| ==> at[k] < at[l])
  }

  /** `kept` is what stands at the positions `at` of `idle`. */
  predicate Picks(idle: seq<Idle>, kept: seq<Idle>, at: seq<nat>) {
    && Rising(at, |idle|) && |at| == |kept|
    && forall k :: 0 <= k < |at| ==> kept[k] == idle[at[k]]
  }

  lemma PicksWithin(idle: seq<Idle>, length: nat, kept: seq<Idle>, at: seq<nat>)
    requires length <= |idle| && Picks(idle[..length], kept, at)
    ensures Picks(idle, kept, at) && Rising(at, length)
  {
  }

  lemma PicksLast(idle: seq<Idle>, kept: seq<Idle>, at: seq<nat>)
    requires idle != [] && Picks(idle, kept, at) && Rising(at, |idle| - 1)
    ensures Picks(idle, kept + [idle[|idle| - 1]], at + [|idle| - 1])
  {
  }

  /** A sweep keeps exactly the connections that pass, each in its place among the others. */
  lemma {:induction false} SweepKeepsOrder(idle: seq<Idle>, keep: Idle -> bool) returns (at: seq<nat>)
    ensures Picks(idle, Sieve(idle, keep), at)
    ensures forall i :: 0 <= i < |idle| ==> (keep(idle[i]) <==> i in at)
    decreases |idle|
  {
    if idle == [] {
      at := [];
    } else {
      var last := |idle| - 1;
      var before := SweepKeepsOrder(idle[..last], keep);
      PicksWithin(idle, last, Sieve(idle[..last], keep), before);
      PicksLast(idle, Sieve(idle[..last], keep), before);
      at := if keep(idle[last]) then before + [last] else before;
      PassesAre(idle, keep, before, at);
    }
  }

  lemma PassesAre(idle: seq<Idle>, keep: Idle -> bool, before: seq<nat>, at: seq<nat>)
    requires idle != [] && Rising(before, |idle| - 1)
    requires forall i :: 0 <= i < |idle| - 1 ==> (keep(idle[..|idle| - 1][i]) <==> i in before)
    requires at == if keep(idle[|idle| - 1]) then before + [|idle| - 1] else before
    ensures forall i :: 0 <= i < |idle| ==> (keep(idle[i]) <==> i in at)
  {
    var last := |idle| - 1;
    forall i | 0 <= i < |idle|
      ensures keep(idle[i]) <==> i in at
    {
      if i < last {
        assert idle[..last][i] == idle[i];
        assert i in at <==> i in before;
      }
    }
  }

  // ---- what one acquisition takes ----------------------------------------------------------------

  lemma {:induction false} SieveIs(idle: seq<Idle>, keep: Idle -> bool)
    ensures multiset(Sieve(idle, keep)) <= multiset(idle)
    ensures forall c :: c in Sieve(idle, keep) <==> c in idle && keep(c)
    ensures |Sieve(idle, keep)| <= |idle|
    decreases |idle|
  {
    if idle != [] {
      SieveIs(idle[..|idle| - 1], keep);
      assert idle == idle[..|idle| - 1] + [idle[|idle| - 1]];
    }
  }

  lemma SwapRemoveTakesOne(idle: seq<Idle>, position: nat)
    requires position < |idle|
    ensures multiset(SwapRemove(idle, position)) == multiset(idle) - multiset{idle[position]}
  {
    var last := |idle| - 1;
    assert idle == idle[..last] + [idle[last]];
  }

  lemma TruncateKeepsPart(idle: seq<Idle>, length: nat)
    ensures multiset(Truncate(idle, length)) <= multiset(idle)
    ensures |Truncate(idle, length)| <= length
  {
    if |idle| > length {
      assert idle == idle[..length] + idle[length..];
    }
  }

  predicate Suits(idle: Idle, request: Request, now: Now) {
    idle.generation == request.generation && Live(idle, request.lifetime, now)
  }

  /** What is taken out of the swept list, and what it leaves there. */
  lemma PickIsSound(usable: seq<Idle>, position: nat)
    requires position < |usable|
    ensures multiset(SwapRemove(usable, position)) + multiset{usable[position]} == multiset(usable)
    ensures forall c :: c in SwapRemove(usable, position) ==> c in usable
  {
    SwapRemoveTakesOne(usable, position);
    assert usable[position] in multiset(usable);
    forall c | c in SwapRemove(usable, position)
      ensures c in usable
    {
      assert c in multiset(SwapRemove(usable, position));
      assert c in multiset(usable);
    }
  }

  lemma TruncatedIsPart(kept: seq<Idle>, length: nat)
    ensures forall c :: c in Truncate(kept, length) ==> c in kept
  {
    TruncateKeepsPart(kept, length);
  }

  /** An acquisition takes a live connection of its own generation whenever one exists, hands out no
      connection twice, and leaves no more idle connections than its capacity has to spare. */
  lemma TakeIsSound(idle: seq<Idle>, request: Request, active: int, now: Now)
    ensures var (rest, selected) := Take(idle, request, active, now);
      && |rest| <= Spare(request.capacity, active)
      && multiset(rest) + (if selected.Some? then multiset{selected.value} else multiset{}) <= multiset(idle)
      && (forall c | c in rest :: Live(c, request.lifetime, now))
      && (selected.Some? <==> !request.newOnly && exists c :: c in idle && Suits(c, request, now))
      && (selected.Some? ==> Suits(selected.value, request, now))
  {
    var usable := Sieve(idle, IsLive(request.lifetime, now));
    SieveIs(idle, IsLive(request.lifetime, now));
    var position := if request.newOnly then -1 else LastOf(usable, request.generation);
    if position >= 0 {
      assert usable[position] in usable;
      PickIsSound(usable, position);
    }
    var kept := if position < 0 then usable else SwapRemove(usable, position);
    TruncateKeepsPart(kept, Spare(request.capacity, active));
    TruncatedIsPart(kept, Spare(request.capacity, active));
  }

  /** The connections that an acquisition finds usable. */
  function Found(idle: seq<Idle>, request: Request, now: Now): seq<Idle> {
    Sieve(idle, IsLive(request.lifetime, now))
  }

  /** Usable are the connections whose owner lives, whose lease has not expired and whose lifetime is not used up. */
  lemma FoundExactly(idle: seq<Idle>, request: Request, now: Now, c: Idle)
    ensures c in Found(idle, request, now) <==>
      && c in idle && c.owner in now.alive && now.instant < c.expiresAt
      && 0 < request.lifetime && now.instant < c.established + request.lifetime
  {
    SieveIs(idle, IsLive(request.lifetime, now));
  }

  /** What an acquisition takes is the most recently parked usable connection of its generation, and it drops no usable
      connection that fits beside it: as many stay idle as there are, up to what its capacity spares. */
  lemma TakeKeepsWhatFits(idle: seq<Idle>, request: Request, active: int, now: Now)
    requires active >= 0
    ensures var (rest, selected) := Take(idle, request, active, now);
      var found := Found(idle, request, now);
      var left := |found| - (if selected.Some? then 1 else 0);
      var spare := if active < request.capacity then request.capacity - active else 0;
      && |rest| == (if left <= spare then left else spare)
      && (left <= spare ==>
            multiset(rest) + (if selected.Some? then multiset{selected.value} else multiset{}) == multiset(found))
      && (selected.Some? ==>
            exists p :: 0 <= p < |found| && found[p] == selected.value
                        && forall q :: p < q < |found| ==> found[q].generation != request.generation)
  {
    var found := Found(idle, request, now);
    var position := if request.newOnly then -1 else LastOf(found, request.generation);
    if position >= 0 {
      PickIsSound(found, position);
      assert |SwapRemove(found, position)| == |found| - 1;
    }
  }

  /** So a connection that has been parked serves the next acquisition of its generation while it is usable. */
  lemma ParkedIsReused(idle: seq<Idle>, returned: Idle, request: Request, active: int, now: Now)
    requires !request.newOnly && Suits(returned, request, now)
    ensures Take(idle + [returned], request, active, now).1 == Some(returned)
  {
    assert (idle + [returned])[..|idle|] == idle;
    var found := Found(idle + [returned], request, now);
    assert found == Found(idle, request, now) + [returned];
    assert found[|found| - 1] == returned;
  }

  // ---- acquire, release, drop and expiry over the gate -------------------------------------------

  /** `Queued` covers an acquisition until its truncation section and `Connected` the time in which it has or may open
      a connection. A connection that is not parked is `Leaving` until it is disposed of; `Closed` is the rest: parked
      or disposed, the admission not yet dropped. */
  datatype Stage = Queued | Connected | Leaving | Closed {
    predicate Open() { Connected? || Leaving? }
  }

  datatype Lease = Lease(capacity: nat, stage: Stage)

  /** `leases` runs parallel to the gate's guards. */
  datatype System = System(gate: Gate.System, leases: seq<Lease>, idle: seq<Idle>)

  datatype Step =
    | Admission(step: Gate.Step)
    | Acquire(g: nat, generation: nat, newOnly: bool, lifetime: nat, now: Now)
    | Release(g: nat, returned: Idle, now: Now)
    | Dispose(g: nat)
    | Expire(instant: nat)
    | Evict(owner: nat)

  const Initial := System(Gate.Initial, [], [])

  predicate Admitted(s: System, g: nat) {
    g < |s.gate.guards| && g < |s.leases| && s.gate.guards[g].phase.Admitted?
  }

  predicate Enabled(s: System, step: Step) {
    match step
    case Admission(inner) =>
      && Gate.Enabled(s.gate, inner)
      // A lease disposes its connection before its admission.
      && (inner.Drop? ==> inner.g < |s.leases| && !s.leases[inner.g].stage.Open())
    case Acquire(g, _, _, _, _) => Admitted(s, g) && s.leases[g].stage.Queued?
    case Release(g, _, _) => Admitted(s, g) && s.leases[g].stage.Connected?
    case Dispose(g) => Admitted(s, g) && s.leases[g].stage.Open()
    case Expire(_) => true
    case Evict(_) => true
  }

  function Staged(s: System, g: nat, stage: Stage): seq<Lease>
    requires g < |s.leases|
  {
    s.leases[g := s.leases[g].(stage := stage)]
  }

  function RequestOf(s: System, step: Step): Request
    requires step.Acquire? && step.g < |s.leases|
  {
    Request(s.leases[step.g].capacity, step.generation, step.newOnly, step.lifetime)
  }

  predicate Parking(s: System, step: Step)
    requires step.Release? && step.g < |s.leases|
  {
    Parks(s.idle, step.returned, s.leases[step.g].capacity, s.gate.gate.active, step.now)
  }

  function Next(s: System, step: Step): System
    requires Enabled(s, step)
  {
    match step
    case Admission(inner) =>
      var gate := Gate.Next(s.gate, inner);
      s.(gate := gate,
         leases := if inner.Arrive? && |gate.guards| > |s.gate.guards| then s.leases + [Lease(inner.limit, Queued)]
                   else s.leases)
    case Acquire(g, _, _, _, now) =>
      s.(idle := Take(s.idle, RequestOf(s, step), s.gate.gate.active, now).0, leases := Staged(s, g, Connected))
    case Release(g, returned, _) =>
      if Parking(s, step) then s.(idle := s.idle + [returned], leases := Staged(s, g, Closed))
      else s.(leases := Staged(s, g, Leaving))
    case Dispose(g) => s.(leases := Staged(s, g, Closed))
    case Expire(instant) => s.(idle := Sieve(s.idle, Outlasts(instant)))
    case Evict(owner) => s.(idle := Sieve(s.idle, OwnedByOthers(owner)))
  }

  /** A step of a runtime whose callers all stay within `bound` connections, and in which a ticket does not wrap
      onto a live waiter. */
  predicate Within(s: System, step: Step, bound: nat) {
    step.Admission? ==> Gate.TicketFree(s.gate, step.step) && (step.step.Arrive? ==> step.step.limit <= bound)
  }

  /** Expiry keeps exactly what outlasts the instant, and stopping an owner exactly what others own; neither touches
      anything else. */
  lemma SweepsExactly(s: System, instant: nat, owner: nat, c: Idle)
    ensures c in Next(s, Expire(instant)).idle <==> c in s.idle && instant < c.expiresAt
    ensures c in Next(s, Evict(owner)).idle <==> c in s.idle && c.owner != owner
    ensures Next(s, Expire(instant)).gate == Next(s, Evict(owner)).gate == s.gate
    ensures Next(s, Expire(instant)).leases == Next(s, Evict(owner)).leases == s.leases
  {
    SieveIs(s.idle, Outlasts(instant));
    SieveIs(s.idle, OwnedByOthers(owner));
  }

  ghost predicate Legal(s: System, steps: seq<Step>, bound: nat)
    decreases |steps|
  {
    steps == [] || (Enabled(s, steps[0]) && Within(s, steps[0], bound) && Legal(Next(s, steps[0]), steps[1..], bound))
  }

  ghost function Run(s: System, steps: seq<Step>, bound: nat): System
    requires Legal(s, steps, bound)
    decreases |steps|
  {
    if steps == [] then s else Run(Next(s, steps[0]), steps[1..], bound)
  }

  function Connections(leases: seq<Lease>): set<nat> {
    set g: nat | g < |leases| && leases[g].stage.Open()
  }

  ghost predicate Capacities(leases: seq<Lease>, bound: nat) {
    forall lease | lease in leases :: lease.capacity <= bound
  }

  /** Every open connection belongs to an admitted guard, and the idle ones fit beside them. */
  ghost predicate Fits(s: System, bound: nat) {
    && |s.leases| == |s.gate.guards|
    && Connections(s.leases) <= Gate.AdmittedGuards(s.gate.guards)
    && |s.idle| + |Connections(s.leases)| <= bound
  }

  ghost predicate Inv(s: System, bound: nat) {
    && Gate.Inv(s.gate)
    && Gate.Within(s.gate.gate, bound)
    && Capacities(s.leases, bound)
    && Fits(s, bound)
  }

  lemma GateIsCounted(s: System)
    requires Gate.Inv(s.gate)
    ensures s.gate.gate.active == |Gate.AdmittedGuards(s.gate.guards)|
  {
  }

  lemma AdmissionKeepsFits(s: System, step: Step, bound: nat)
    requires step.Admission? && Enabled(s, step) && Fits(s, bound)
    ensures Fits(Next(s, step), bound)
  {
    var t := Next(s, step);
    assert Connections(t.leases) == Connections(s.leases);
    forall g | g in Connections(s.leases)
      ensures g in Gate.AdmittedGuards(t.gate.guards)
    {
      assert g in Gate.AdmittedGuards(s.gate.guards);
    }
  }

  lemma AdmissionKeepsInv(s: System, step: Step, bound: nat)
    requires Inv(s, bound) && step.Admission? && Enabled(s, step) && Within(s, step, bound)
    ensures Inv(Next(s, step), bound)
  {
    Gate.StepKeepsInv(s.gate, step.step);
    Gate.StepKeepsWithin(s.gate, step.step, bound);
    AdmissionKeepsFits(s, step, bound);
  }

  /** What changing the stage of an admitted guard's lease does to the open connections. */
  lemma StagedConnections(s: System, g: nat, stage: Stage)
    requires Admitted(s, g)
    ensures Connections(Staged(s, g, stage)) ==
            if stage.Open() then Connections(s.leases) + {g} else Connections(s.leases) - {g}
  {
  }

  /** The acquirer's own admission is among those counted, so what is spared for it leaves it room. */
  lemma SpareLeavesRoom(s: System, g: nat, bound: nat)
    requires Gate.Inv(s.gate) && Admitted(s, g)
    requires Connections(s.leases) <= Gate.AdmittedGuards(s.gate.guards)
    requires s.leases[g].capacity <= bound && s.gate.gate.active <= bound
    ensures Spare(s.leases[g].capacity, s.gate.gate.active) + |Connections(s.leases) + {g}| <= bound
  {
    GateIsCounted(s);
    assert g in Gate.AdmittedGuards(s.gate.guards);
    SubsetCardinality(Connections(s.leases) + {g}, Gate.AdmittedGuards(s.gate.guards));
  }

  lemma TakeFits(idle: seq<Idle>, request: Request, active: int, now: Now)
    ensures |Take(idle, request, active, now).0| <= Spare(request.capacity, active)
  {
    TakeIsSound(idle, request, active, now);
  }

  lemma AcquireKeepsFits(s: System, step: Step, bound: nat)
    requires Inv(s, bound) && step.Acquire? && Enabled(s, step)
    ensures Fits(Next(s, step), bound)
  {
    assert s.leases[step.g] in s.leases;
    SpareLeavesRoom(s, step.g, bound);
    TakeFits(s.idle, RequestOf(s, step), s.gate.gate.active, step.now);
    StagedConnections(s, step.g, Connected);
    assert step.g in Gate.AdmittedGuards(s.gate.guards);
  }

  lemma ReleaseKeepsFits(s: System, step: Step, bound: nat)
    requires Fits(s, bound) && step.Release? && Enabled(s, step)
    ensures Fits(Next(s, step), bound)
  {
    var stage := if Parking(s, step) then Closed else Leaving;
    assert step.g in Connections(s.leases);
    StagedConnections(s, step.g, stage);
    assert Connections(s.leases) + {step.g} == Connections(s.leases);
  }

  lemma DisposeKeepsFits(s: System, step: Step, bound: nat)
    requires Fits(s, bound) && step.Dispose? && Enabled(s, step)
    ensures Fits(Next(s, step), bound)
  {
    assert step.g in Connections(s.leases);
    StagedConnections(s, step.g, Closed);
  }

  lemma SweepKeepsFits(s: System, step: Step, bound: nat)
    requires Fits(s, bound) && (step.Expire? || step.Evict?) && Enabled(s, step)
    ensures Fits(Next(s, step), bound) && |Next(s, step).idle| <= |s.idle|
  {
    SieveIs(s.idle, if step.Expire? then Outlasts(step.instant) else OwnedByOthers(step.owner));
  }

  /** Only the stage of a lease ever changes. */
  lemma StagedCapacities(s: System, g: nat, stage: Stage, bound: nat)
    requires g < |s.leases| && Capacities(s.leases, bound)
    ensures Capacities(Staged(s, g, stage), bound)
  {
    assert s.leases[g] in s.leases;
  }

  lemma StepKeepsCapacities(s: System, step: Step, bound: nat)
    requires Capacities(s.leases, bound) && Enabled(s, step) && Within(s, step, bound)
    ensures Capacities(Next(s, step).leases, bound)
  {
    match step
    case Acquire(g, _, _, _, _) => StagedCapacities(s, g, Connected, bound);
    case Release(g, _, _) => StagedCapacities(s, g, if Parking(s, step) then Closed else Leaving, bound);
    case Dispose(g) => StagedCapacities(s, g, Closed, bound);
    case _ =>
  }

  lemma StepKeepsInv(s: System, step: Step, bound: nat)
    requires Inv(s, bound) && Enabled(s, step) && Within(s, step, bound)
    ensures Inv(Next(s, step), bound)
  {
    if step.Admission? {
      AdmissionKeepsInv(s, step, bound);
    } else {
      match step
      case Acquire(_, _, _, _, _) => AcquireKeepsFits(s, step, bound);
      case Release(_, _, _) => ReleaseKeepsFits(s, step, bound);
      case Dispose(_) => DisposeKeepsFits(s, step, bound);
      case _ => SweepKeepsFits(s, step, bound);
    }
    StepKeepsCapacities(s, step, bound);
  }

  lemma {:induction false} RunKeepsInv(s: System, steps: seq<Step>, bound: nat)
    requires Inv(s, bound) && Legal(s, steps, bound)
    ensures Inv(Run(s, steps, bound), bound)
    decreases |steps|
  {
    if steps != [] {
      StepKeepsInv(s, steps[0], bound);
      RunKeepsInv(Next(s, steps[0]), steps[1..], bound);
    }
  }

  lemma InitialInv(bound: nat)
    ensures Inv(Initial, bound)
  {
    assert Gate.AdmittedGuards(Initial.gate.guards) == {};
  }

  /** Over all interleavings, idle connections and acquisitions past their truncation section together stay
      within the largest `account_connections` in use, as does the number of admitted guards. */
  lemma ConnectionBound(steps: seq<Step>, bound: nat)
    requires Legal(Initial, steps, bound)
    ensures var s := Run(Initial, steps, bound);
      |s.idle| + |Connections(s.leases)| <= bound && 0 <= s.gate.gate.active <= bound
  {
    InitialInv(bound);
    RunKeepsInv(Initial, steps, bound);
    GateIsCounted(Run(Initial, steps, bound));
  }

  /** When a released connection is parked, over all states: exactly if its owner lives, it has not expired, and it fits
      beside the idle and active ones under its lease's capacity; otherwise it is still to be disposed of. */
  lemma ReleasesExactly(s: System, g: nat, returned: Idle, now: Now)
    requires Enabled(s, Release(g, returned, now))
    ensures var t := Next(s, Release(g, returned, now));
      var parks := returned.owner in now.alive && now.instant < returned.expiresAt
                   && |s.idle| + s.gate.gate.active <= s.leases[g].capacity;
      && t.gate == s.gate
      && t.idle == (if parks then s.idle + [returned] else s.idle)
      && t.leases == s.leases[g := Lease(s.leases[g].capacity, if parks then Closed else Leaving)]
  {
  }

  // ---- idle plus active --------------------------------------------------------------------------

  /** The sum that one would expect to stay within the bound. */
  function Load(s: System): int { |s.idle| + s.gate.gate.active }

  /** The step raises the sum: it admits a guard, which happens without the pool lock, or it parks a connection whose
      own admission is still counted. */
  predicate Raises(s: System, step: Step)
    requires Enabled(s, step)
  {
    match step
    case Admission(inner) => Gate.Grants(s.gate, inner)
    case Release(_, _, _) => Parking(s, step)
    case _ => false
  }

  lemma AcquireLowersLoad(s: System, step: Step, bound: nat)
    requires Inv(s, bound) && step.Acquire? && Enabled(s, step)
    ensures Load(Next(s, step)) <= bound
  {
    assert s.leases[step.g] in s.leases;
    TakeFits(s.idle, RequestOf(s, step), s.gate.gate.active, step.now);
  }

  lemma RaisesByOne(s: System, step: Step)
    requires Enabled(s, step) && Raises(s, step)
    ensures Load(Next(s, step)) == Load(s) + 1
  {
  }

  lemma OthersKeepLoad(s: System, step: Step, bound: nat)
    requires Inv(s, bound) && Enabled(s, step) && Load(s) <= bound && !Raises(s, step)
    ensures Load(Next(s, step)) <= bound
  {
    match step
    case Acquire(_, _, _, _, _) => AcquireLowersLoad(s, step, bound);
    case Expire(_) => SweepKeepsFits(s, step, bound);
    case Evict(_) => SweepKeepsFits(s, step, bound);
    case _ =>
  }

  /** Idle plus active connections leave their bound exactly when they were at it and the step admits a guard or parks
      a connection. */
  lemma ActiveBoundExactly(s: System, step: Step, bound: nat)
    requires Inv(s, bound) && Enabled(s, step) && Within(s, step, bound) && Load(s) <= bound
    ensures Load(Next(s, step)) <= bound <==> !(Load(s) == bound && Raises(s, step))
  {
    if Raises(s, step) {
      RaisesByOne(s, step);
    } else {
      OthersKeepLoad(s, step, bound);
    }
  }

  /** Every acquisition section brings the sum back within the bound, however far others had raised it. */
  lemma AcquireRestoresLoad(s: System, step: Step, bound: nat)
    requires Inv(s, bound) && step.Acquire? && Enabled(s, step)
    ensures Load(Next(s, step)) <= bound && Fits(Next(s, step), bound)
  {
    AcquireLowersLoad(s, step, bound);
    AcquireKeepsFits(s, step, bound);
  }

  /** At some point of the run the sum is at the bound and is raised. */
  ghost predicate Overruns(s: System, steps: seq<Step>, bound: nat)
    requires Legal(s, steps, bound)
    decreases |steps|
  {
    steps != [] &&
    ((Load(s) == bound && Raises(s, steps[0])) || Overruns(Next(s, steps[0]), steps[1..], bound))
  }

  ghost predicate StaysWithin(s: System, steps: seq<Step>, bound: nat)
    requires Legal(s, steps, bound)
    decreases |steps|
  {
    Load(s) <= bound && (steps != [] ==> StaysWithin(Next(s, steps[0]), steps[1..], bound))
  }

  /** Over a whole run, the sum is within the bound in every state exactly when it is never raised at the bound. */
  lemma {:induction false} RunWithinExactly(s: System, steps: seq<Step>, bound: nat)
    requires Inv(s, bound) && Legal(s, steps, bound) && Load(s) <= bound
    ensures StaysWithin(s, steps, bound) <==> !Overruns(s, steps, bound)
    decreases |steps|
  {
    if steps != [] {
      var t := Next(s, steps[0]);
      ActiveBoundExactly(s, steps[0], bound);
      StepKeepsInv(s, steps[0], bound);
      if Load(t) <= bound {
        RunWithinExactly(t, steps[1..], bound);
      } else {
        assert !StaysWithin(t, steps[1..], bound);
      }
    }
  }

  lemma {:induction false} LegalExtends(s: System, steps: seq<Step>, step: Step, bound: nat)
    requires Legal(s, steps, bound)
    requires Enabled(Run(s, steps, bound), step) && Within(Run(s, steps, bound), step, bound)
    ensures Legal(s, steps + [step], bound) && Run(s, steps + [step], bound) == Next(Run(s, steps, bound), step)
    decreases |steps|
  {
    var all := steps + [step];
    if steps == [] {
      assert all[1..] == [] && Legal(Next(s, step), [], bound);
    } else {
      assert all[0] == steps[0] && all[1..] == steps[1..] + [step];
      LegalExtends(Next(s, steps[0]), steps[1..], step, bound);
    }
  }

  /** One lease is taken and parked again under a limit of `bound`, its admission still counted. */
  lemma ParkOne(bound: nat) returns (steps: seq<Step>)
    requires bound >= 1
    ensures Legal(Initial, steps, bound)
    ensures var s := Run(Initial, steps, bound);
      |s.idle| == 1 && s.gate.gate.active == 1 && s.gate.gate.waiting == []
  {
    var now := Now(0, {0});
    var returned := Idle(0, 0, 0, 1, 0);
    LegalExtends(Initial, [], Admission(Gate.Arrive(bound, 0)), bound);
    steps := [] + [Admission(Gate.Arrive(bound, 0))];
    LegalExtends(Initial, steps, Acquire(0, 0, false, 1, now), bound);
    steps := steps + [Acquire(0, 0, false, 1, now)];
    LegalExtends(Initial, steps, Release(0, returned, now), bound);
    steps := steps + [Release(0, returned, now)];
  }

  /** The sum does leave its bound: a released connection is parked while its own admission is still counted. */
  lemma ActiveBoundFails() returns (steps: seq<Step>)
    ensures Legal(Initial, steps, 1)
    ensures |Run(Initial, steps, 1).idle| + Run(Initial, steps, 1).gate.gate.active > 1
  {
    steps := ParkOne(1);
  }

  /** And so it does without any release at the bound: a guard is admitted while the idle list is full. */
  lemma GrantOverruns() returns (before: seq<Step>, grant: Step)
    ensures Legal(Initial, before, 2) && Load(Run(Initial, before, 2)) == 2
    ensures grant.Admission? && Legal(Initial, before + [grant], 2)
    ensures Load(Run(Initial, before + [grant], 2)) > 2
  {
    before := ParkOne(2);
    grant := Admission(Gate.Arrive(2, 0));
    LegalExtends(Initial, before, grant, 2);
  }
}
