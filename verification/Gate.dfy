/** The FIFO admission gate of src/authentication.rs: `GateState`, `Gate::reserve`, `Admission::wait` and
    `Drop for Admission`, first as critical sections, then as an interleaved transition system. */
module Gate {
  import opened Wrappers

  // `next_ticket` is a u64 that wraps.
  const TICKETS: nat := 0x1_0000_0000_0000_0000

  /** A queue entry. `guard` names the Admission it belongs to, hence also that Admission's own Notify. */
  datatype Waiter = Waiter(ticket: nat, activeLimit: nat, guard: nat)

  /** `active` is an int so that an underflow would be visible. */
  datatype State = State(active: int, waiting: seq<Waiter>, nextTicket: nat)

  datatype Reservation = Immediate | Queued(ticket: nat) | RateLimited

  const Empty := State(0, [], 0)

  // ---- critical sections -------------------------------------------------------------------------

  function NextNotification(s: State): Option<nat> {
    if s.waiting != [] && s.active < s.waiting[0].activeLimit then Some(s.waiting[0].guard) else None
  }

  function Reserve(s: State, guard: nat, limit: nat, pending: nat): (State, Reservation) {
    if s.waiting == [] && s.active < limit then
      (s.(active := s.active + 1), Immediate)
    else if |s.waiting| >= pending then
      (s, RateLimited)
    else
      (State(s.active, s.waiting + [Waiter(s.nextTicket, limit, guard)], (s.nextTicket + 1) % TICKETS),
       Queued(s.nextTicket))
  }

  predicate Admissible(s: State, ticket: nat) {
    s.waiting != [] && s.waiting[0].ticket == ticket && s.active < s.waiting[0].activeLimit
  }

  function Admit(s: State): State
    requires s.waiting != []
  {
    s.(active := s.active + 1, waiting := s.waiting[1..])
  }

  function Retain(waiting: seq<Waiter>, ticket: nat): seq<Waiter> {
    if waiting == [] then []
    else (if waiting[0].ticket != ticket then [waiting[0]] else []) + Retain(waiting[1..], ticket)
  }

  function Release(s: State, ticket: Option<nat>): State {
    match ticket
    case Some(t) => s.(waiting := Retain(s.waiting, t))
    case None => s.(active := s.active - 1)
  }

  /** The mutex-guarded state; each method is one critical section. */
  class GateState {
    var active: int
    var waiting: seq<Waiter>
    var nextTicket: nat

    ghost function View(): State
      reads this
    {
      State(active, waiting, nextTicket)
    }

    constructor ()
      ensures View() == Empty
    {
      active, waiting, nextTicket := 0, [], 0;
    }

    method ReserveSlot(guard: nat, limit: nat, pending: nat) returns (r: Reservation)
      modifies this
      ensures (View(), r) == Reserve(old(View()), guard, limit, pending)
    {
      if waiting == [] && active < limit {
        active := active + 1;
        return Immediate;
      }
      if |waiting| >= pending {
        return RateLimited;
      }
      var ticket := nextTicket;
      nextTicket := (nextTicket + 1) % TICKETS;
      waiting := waiting + [Waiter(ticket, limit, guard)];
      return Queued(ticket);
    }

    /** The locked part of one turn of the loop in `Admission::wait`. */
    method TryAdmit(ticket: nat) returns (admitted: bool, notify: Option<nat>)
      modifies this
      ensures admitted == Admissible(old(View()), ticket)
      ensures View() == if admitted then Admit(old(View())) else old(View())
      ensures notify == if admitted then NextNotification(View()) else None
    {
      admitted, notify := false, None;
      if waiting != [] && waiting[0].ticket == ticket && active < waiting[0].activeLimit {
        waiting := waiting[1..];
        active := active + 1;
        admitted := true;
        if waiting != [] && active < waiting[0].activeLimit {
          notify := Some(waiting[0].guard);
        }
      }
    }

    /** `Drop for Admission`: a queued guard leaves the queue, an admitted one gives its capacity back. */
    method DropAdmission(ticket: Option<nat>) returns (notify: Option<nat>)
      modifies this
      ensures View() == Release(old(View()), ticket)
      ensures notify == NextNotification(View())
    {
      match ticket {
        case Some(t) => waiting := Retain(waiting, t);
        case None => active := active - 1;
      }
      notify := if waiting != [] && active < waiting[0].activeLimit then Some(waiting[0].guard) else None;
    }
  }

  // ---- the interleaved system --------------------------------------------------------------------

  /** Where a guard's task stands in `Admission::wait`. `signalled` says that its current `Notified`
      future has already been completed by a notification. */
  datatype Phase =
    | Idle                          // about to create and enable a `Notified` future
    | Registered(signalled: bool)   // enabled, has yet to take the lock and run its check
    | Parked(signalled: bool)       // the check failed, awaiting the future
    | Admitted
    | Dropped

  /** `limit` is the active limit its caller asked for, and `permit` the single permit a Notify stores when no
      unsignalled future is registered. */
  datatype Guard = Guard(limit: nat, ticket: nat, phase: Phase, permit: bool) {
    predicate Waits() { phase.Idle? || phase.Registered? || phase.Parked? }
    /** A permit is stored only while no unsignalled future is there to take it. */
    predicate PermitUnclaimed() { permit ==> phase != Registered(false) && phase != Parked(false) }
    predicate Live() { Waits() || phase.Admitted? }
  }

  /** Guards are numbered by arrival. `inFlight` holds the `notify_one` calls that were decided under the
      lock and are still to be made after it was released; `admissions` logs guards as they are admitted. */
  datatype System = System(gate: State, guards: seq<Guard>, inFlight: multiset<nat>, admissions: seq<nat>)

  datatype Step =
    | Arrive(limit: nat, pending: nat)
    | Enable(g: nat)
    | Check(g: nat)
    | Wake(g: nat)
    | Drop(g: nat)
    | Deliver(g: nat)

  const Initial := System(Empty, [], multiset{}, [])

  predicate Enabled(s: System, step: Step) {
    match step
    case Arrive(_, _) => true
    case Enable(g) => g < |s.guards| && s.guards[g].phase.Idle?
    case Check(g) => g < |s.guards| && s.guards[g].phase.Registered?
    case Wake(g) => g < |s.guards| && s.guards[g].phase == Parked(true)
    case Drop(g) => g < |s.guards| && s.guards[g].Live()
    case Deliver(g) => g < |s.guards| && s.inFlight[g] > 0
  }

  function Announce(inFlight: multiset<nat>, notify: Option<nat>): multiset<nat> {
    match notify case Some(g) => inFlight + multiset{g} case None => inFlight
  }

  function Notified(guard: Guard): Guard {
    match guard.phase
    case Registered(false) => guard.(phase := Registered(true))
    case Parked(false) => guard.(phase := Parked(true))
    case _ => guard.(permit := true)
  }

  function Next(s: System, step: Step): System
    requires Enabled(s, step)
  {
    match step
    case Arrive(limit, pending) =>
      var id := |s.guards|;
      var (gate, r) := Reserve(s.gate, id, limit, pending);
      (match r
       case Immediate =>
         s.(gate := gate, guards := s.guards + [Guard(limit, 0, Admitted, false)], admissions := s.admissions + [id])
       case Queued(ticket) => s.(gate := gate, guards := s.guards + [Guard(limit, ticket, Idle, false)])
       case RateLimited => s)
    case Enable(g) =>
      var guard := s.guards[g];
      s.(guards := s.guards[g := guard.(phase := Registered(guard.permit), permit := false)])
    case Check(g) =>
      var guard := s.guards[g];
      if Admissible(s.gate, guard.ticket) then
        var gate := Admit(s.gate);
        System(gate, s.guards[g := guard.(phase := Admitted)],
               Announce(s.inFlight, NextNotification(gate)), s.admissions + [g])
      else
        s.(guards := s.guards[g := guard.(phase := Parked(guard.phase.signalled))])
    case Wake(g) => s.(guards := s.guards[g := s.guards[g].(phase := Idle)])
    case Drop(g) =>
      var guard := s.guards[g];
      var gate := Release(s.gate, if guard.Waits() then Some(guard.ticket) else None);
      System(gate, s.guards[g := guard.(phase := Dropped)],
             Announce(s.inFlight, NextNotification(gate)), s.admissions)
    case Deliver(g) =>
      s.(inFlight := s.inFlight - multiset{g}, guards := s.guards[g := Notified(s.guards[g])])
  }

  // ---- invariant ---------------------------------------------------------------------------------

  function AdmittedGuards(guards: seq<Guard>): set<nat> {
    set g: nat | g < |guards| && guards[g].phase.Admitted?
  }

  /** Every queue entry belongs to a waiting guard, holds its ticket and carries the limit it was asked for. */
  ghost predicate Entries(s: System) {
    forall w | w in s.gate.waiting :: Owns(s.guards, w)
  }

  predicate Owns(guards: seq<Guard>, w: Waiter) {
    && w.guard < |guards| && guards[w.guard].Waits()
    && guards[w.guard].ticket == w.ticket && guards[w.guard].limit == w.activeLimit
  }

  /** The queue is in arrival order and no ticket occurs twice. */
  ghost predicate Ordered(waiting: seq<Waiter>) {
    && (forall i, j | 0 <= i < j < |waiting| :: waiting[i].guard < waiting[j].guard)
    && (forall i, j | 0 <= i < j < |waiting| :: waiting[i].ticket != waiting[j].ticket)
  }

  /** Every waiting guard has an entry. */
  ghost predicate Complete(s: System) {
    forall g: nat | g < |s.guards| && s.guards[g].Waits() :: exists w :: w in s.gate.waiting && w.guard == g
  }

  ghost predicate Queue(s: System) {
    Entries(s) && Ordered(s.gate.waiting) && Complete(s)
  }

  ghost predicate Fifo(s: System) {
    && (forall i, j | 0 <= i < j < |s.admissions| :: s.admissions[i] < s.admissions[j])
    && (forall i | 0 <= i < |s.admissions| :: s.admissions[i] < |s.guards| && !s.guards[s.admissions[i]].Waits())
    && (forall g: nat | g < |s.guards| && s.guards[g].phase.Admitted? :: g in s.admissions)
    && (forall i, j | 0 <= i < |s.admissions| && 0 <= j < |s.gate.waiting| ::
          s.admissions[i] < s.gate.waiting[j].guard)
  }

  /** There is room for the head under the limit its own caller asked for. */
  predicate Eligible(s: System) {
    && s.gate.waiting != [] && s.gate.waiting[0].guard < |s.guards|
    && s.gate.active < s.guards[s.gate.waiting[0].guard].limit
  }

  /** Eligible capacity is on its way: a notification for the head is in flight, its future has completed, or
      it has yet to run its check. */
  ghost predicate NoLostWakeup(s: System) {
    Eligible(s) ==>
      var head := s.gate.waiting[0].guard;
      && (|| s.inFlight[head] > 0
          || s.guards[head].phase.Idle?
          || s.guards[head].phase.Registered?
          || s.guards[head].phase == Parked(true))
  }

  ghost predicate Inv(s: System) {
    && s.gate.active == |AdmittedGuards(s.guards)|
    && Queue(s)
    && Fifo(s)
    && NoLostWakeup(s)
    && (forall g | g in s.inFlight :: g < |s.guards|)
    && (forall g | 0 <= g < |s.guards| :: s.guards[g].PermitUnclaimed())
  }

  /** A reservation that would queue finds its ticket unused by every live waiter. */
  predicate TicketFree(s: System, step: Step) {
    step.Arrive? && Reserve(s.gate, |s.guards|, step.limit, step.pending).1.Queued? ==>
      forall i | 0 <= i < |s.gate.waiting| :: s.gate.waiting[i].ticket != s.gate.nextTicket
  }

  ghost predicate Legal(s: System, steps: seq<Step>)
    decreases |steps|
  {
    steps == [] || (Enabled(s, steps[0]) && TicketFree(s, steps[0]) && Legal(Next(s, steps[0]), steps[1..]))
  }

  ghost function Run(s: System, steps: seq<Step>): System
    requires Legal(s, steps)
    decreases |steps|
  {
    if steps == [] then s else Run(Next(s, steps[0]), steps[1..])
  }

  // ---- proofs ------------------------------------------------------------------------------------

  lemma {:induction false} RetainFirst(waiting: seq<Waiter>, ticket: nat)
    requires waiting != [] && waiting[0].ticket == ticket
    requires forall j | 0 < j < |waiting| :: waiting[j].ticket != ticket
    ensures Retain(waiting, ticket) == waiting[1..]
  {
    RetainAll(waiting[1..], ticket);
  }

  lemma {:induction false} RetainAll(waiting: seq<Waiter>, ticket: nat)
    requires forall j | 0 <= j < |waiting| :: waiting[j].ticket != ticket
    ensures Retain(waiting, ticket) == waiting
  {
    if waiting != [] {
      RetainAll(waiting[1..], ticket);
    }
  }

  /** Leaving the queue removes exactly the guard's own entry. */
  lemma {:induction false} RetainAt(waiting: seq<Waiter>, k: nat)
    requires k < |waiting|
    requires forall i, j | 0 <= i < j < |waiting| :: waiting[i].ticket != waiting[j].ticket
    ensures Retain(waiting, waiting[k].ticket) == waiting[..k] + waiting[k + 1..]
  {
    if k == 0 {
      RetainFirst(waiting, waiting[0].ticket);
    } else {
      RetainAt(waiting[1..], k - 1);
    }
  }

  lemma QueuedKeepsComplete(s: System, t: System, entry: Waiter, guard: Guard)
    requires Complete(s) && t.gate.waiting == s.gate.waiting + [entry] && t.guards == s.guards + [guard]
    requires entry.guard == |s.guards|
    ensures Complete(t)
  {
    forall g: nat | g < |t.guards| && t.guards[g].Waits()
      ensures exists w :: w in t.gate.waiting && w.guard == g
    {
      if g < |s.guards| {
        assert s.guards[g].Waits();
        var w :| w in s.gate.waiting && w.guard == g;
        assert w in t.gate.waiting;
      } else {
        assert t.gate.waiting[|s.gate.waiting|] == entry;
      }
    }
  }

  lemma QueuedKeepsOrdered(s: System, waiting: seq<Waiter>, entry: Waiter)
    requires Entries(s) && Ordered(s.gate.waiting) && waiting == s.gate.waiting + [entry] && entry.guard == |s.guards|
    requires forall i | 0 <= i < |s.gate.waiting| :: s.gate.waiting[i].ticket != entry.ticket
    ensures Ordered(waiting)
  {
    forall i | 0 <= i < |s.gate.waiting|
      ensures waiting[i].guard < entry.guard
    {
      assert waiting[i] in s.gate.waiting;
    }
  }

  lemma ArriveKeepsQueue(s: System, step: Step)
    requires Queue(s) && step.Arrive? && TicketFree(s, step)
    ensures Queue(Next(s, step))
  {
    var t := Next(s, step);
    var id := |s.guards|;
    if Reserve(s.gate, id, step.limit, step.pending).1.Queued? {
      var entry := Waiter(s.gate.nextTicket, step.limit, id);
      QueuedKeepsComplete(s, t, entry, Guard(step.limit, s.gate.nextTicket, Idle, false));
      QueuedKeepsOrdered(s, t.gate.waiting, entry);
    } else {
      assert forall g: nat | g < |t.guards| && t.guards[g].Waits() :: g < id && s.guards[g].Waits();
    }
  }

  lemma ArriveKeepsCount(s: System, step: Step)
    requires Inv(s) && step.Arrive?
    ensures Next(s, step).gate.active == |AdmittedGuards(Next(s, step).guards)|
  {
    var t := Next(s, step);
    var id := |s.guards|;
    if t.guards != s.guards && t.guards[id].phase.Admitted? {
      assert AdmittedGuards(t.guards) == AdmittedGuards(s.guards) + {id};
    } else {
      assert AdmittedGuards(t.guards) == AdmittedGuards(s.guards);
    }
  }

  lemma ArriveKeepsFifo(s: System, step: Step)
    requires Inv(s) && step.Arrive?
    ensures Fifo(Next(s, step))
  {
  }

  lemma ArriveKeepsWakeups(s: System, step: Step)
    requires Inv(s) && step.Arrive?
    ensures NoLostWakeup(Next(s, step))
  {
    var t := Next(s, step);
    if s.gate.waiting != [] && t.gate.waiting != [] {
      assert s.gate.waiting[0] in s.gate.waiting;
      assert t.gate.waiting[0] == s.gate.waiting[0];
    }
  }

  lemma AdmitTakesHead(s: System, g: nat)
    requires Queue(s) && Enabled(s, Check(g)) && Admissible(s.gate, s.guards[g].ticket)
    ensures s.gate.waiting[0].guard == g
  {
    var w :| w in s.gate.waiting && w.guard == g;
    var i :| 0 <= i < |s.gate.waiting| && s.gate.waiting[i] == w;
    assert s.gate.waiting[0].ticket == s.gate.waiting[i].ticket;
  }

  /** Taking entry `k` out of the queue keeps the others, which belong to other guards. */
  lemma WithoutEntry(waiting: seq<Waiter>, k: nat, rest: seq<Waiter>)
    requires k < |waiting| && Ordered(waiting) && rest == waiting[..k] + waiting[k + 1..]
    ensures Ordered(rest)
    ensures forall w | w in rest :: w in waiting && w.guard != waiting[k].guard
    ensures forall w | w in waiting && w.guard != waiting[k].guard :: w in rest
  {
    assert forall i | 0 <= i < |rest| :: rest[i] == waiting[if i < k then i else i + 1];
    WithoutEntryMembers(waiting, k, rest);
  }

  lemma WithoutEntryMembers(waiting: seq<Waiter>, k: nat, rest: seq<Waiter>)
    requires k < |waiting| && rest == waiting[..k] + waiting[k + 1..]
    requires forall i, j | 0 <= i < j < |waiting| :: waiting[i].guard < waiting[j].guard
    ensures forall w | w in rest :: w in waiting && w.guard != waiting[k].guard
    ensures forall w | w in waiting && w.guard != waiting[k].guard :: w in rest
  {
    assert waiting == waiting[..k] + [waiting[k]] + waiting[k + 1..];
    forall w | w in rest
      ensures w.guard != waiting[k].guard
    {
      var i :| 0 <= i < |rest| && rest[i] == w;
      assert rest[i] == waiting[if i < k then i else i + 1];
    }
  }

  /** A guard that stops waiting takes its entry with it. */
  lemma LeaveKeepsQueue(s: System, t: System, k: nat, guard: Guard)
    requires Queue(s) && k < |s.gate.waiting|
    requires t.gate.waiting == s.gate.waiting[..k] + s.gate.waiting[k + 1..]
    requires s.gate.waiting[k].guard < |s.guards| && !guard.Waits()
    requires t.guards == s.guards[s.gate.waiting[k].guard := guard]
    ensures Queue(t)
    ensures forall w | w in t.gate.waiting :: w in s.gate.waiting
  {
    var g := s.gate.waiting[k].guard;
    WithoutEntry(s.gate.waiting, k, t.gate.waiting);
    forall h: nat | h < |t.guards| && t.guards[h].Waits()
      ensures exists w :: w in t.gate.waiting && w.guard == h
    {
      assert h != g && s.guards[h].Waits();
      var w :| w in s.gate.waiting && w.guard == h;
      assert w in t.gate.waiting;
    }
  }

  lemma AdmitKeepsQueue(s: System, g: nat)
    requires Queue(s) && Enabled(s, Check(g)) && Admissible(s.gate, s.guards[g].ticket)
    ensures Queue(Next(s, Check(g)))
  {
    AdmitTakesHead(s, g);
    var t := Next(s, Check(g));
    assert s.gate.waiting[..0] + s.gate.waiting[1..] == s.gate.waiting[1..];
    LeaveKeepsQueue(s, t, 0, s.guards[g].(phase := Admitted));
  }

  /** The next guard in line goes to the end of the log. */
  lemma LogExtends(s: System, t: System, g: nat)
    requires Fifo(s) && Ordered(s.gate.waiting) && s.gate.waiting != [] && s.gate.waiting[0].guard == g
    requires t.admissions == s.admissions + [g] && t.gate.waiting == s.gate.waiting[1..]
    requires g < |s.guards| && t.guards == s.guards[g := s.guards[g].(phase := Admitted)]
    ensures Fifo(t)
  {
    assert forall j | 0 <= j < |t.gate.waiting| :: t.gate.waiting[j] == s.gate.waiting[j + 1];
    forall h: nat | h < |t.guards| && t.guards[h].phase.Admitted?
      ensures h in t.admissions
    {
      assert h != g ==> h in s.admissions;
    }
  }

  lemma AdmitKeepsFifo(s: System, g: nat)
    requires Queue(s) && Fifo(s) && Enabled(s, Check(g)) && Admissible(s.gate, s.guards[g].ticket)
    ensures Fifo(Next(s, Check(g)))
  {
    AdmitTakesHead(s, g);
    LogExtends(s, Next(s, Check(g)), g);
  }

  lemma AdmitKeepsCount(s: System, g: nat)
    requires Enabled(s, Check(g)) && Admissible(s.gate, s.guards[g].ticket)
    requires s.gate.active == |AdmittedGuards(s.guards)|
    ensures Next(s, Check(g)).gate.active == |AdmittedGuards(Next(s, Check(g)).guards)|
  {
    assert AdmittedGuards(Next(s, Check(g)).guards) == AdmittedGuards(s.guards) + {g};
  }

  /** After a removal from the queue the new head, if eligible, is being notified. */
  lemma AnnounceCovers(s: System, gate: State, guards: seq<Guard>, log: seq<nat>)
    requires forall w | w in gate.waiting :: Owns(guards, w)
    ensures NoLostWakeup(System(gate, guards, Announce(s.inFlight, NextNotification(gate)), log))
  {
    if gate.waiting != [] {
      assert gate.waiting[0] in gate.waiting;
    }
  }

  lemma EntryOf(s: System, g: nat) returns (k: nat)
    requires Queue(s) && g < |s.guards| && s.guards[g].Waits()
    ensures k < |s.gate.waiting| && s.gate.waiting[k].guard == g && s.gate.waiting[k].ticket == s.guards[g].ticket
  {
    var v :| v in s.gate.waiting && v.guard == g;
    k :| 0 <= k < |s.gate.waiting| && s.gate.waiting[k] == v;
  }

  lemma DropWaitingKeepsQueue(s: System, g: nat, k: nat)
    requires Queue(s) && Enabled(s, Drop(g)) && s.guards[g].Waits()
    requires k < |s.gate.waiting| && s.gate.waiting[k].guard == g && s.gate.waiting[k].ticket == s.guards[g].ticket
    ensures Queue(Next(s, Drop(g)))
    ensures forall w | w in Next(s, Drop(g)).gate.waiting :: w in s.gate.waiting
  {
    RetainAt(s.gate.waiting, k);
    LeaveKeepsQueue(s, Next(s, Drop(g)), k, s.guards[g].(phase := Dropped));
  }

  lemma DropKeepsQueue(s: System, g: nat)
    requires Queue(s) && Enabled(s, Drop(g))
    ensures Queue(Next(s, Drop(g)))
    ensures forall w | w in Next(s, Drop(g)).gate.waiting :: w in s.gate.waiting
  {
    if s.guards[g].Waits() {
      var k := EntryOf(s, g);
      DropWaitingKeepsQueue(s, g, k);
    } else {
      var t := Next(s, Drop(g));
      assert forall h: nat | h < |t.guards| && t.guards[h].Waits() :: s.guards[h].Waits();
    }
  }

  lemma DropKeepsCount(s: System, g: nat)
    requires Enabled(s, Drop(g)) && s.gate.active == |AdmittedGuards(s.guards)|
    ensures Next(s, Drop(g)).gate.active == |AdmittedGuards(Next(s, Drop(g)).guards)|
  {
    var t := Next(s, Drop(g));
    if s.guards[g].Waits() {
      assert AdmittedGuards(t.guards) == AdmittedGuards(s.guards);
    } else {
      assert AdmittedGuards(t.guards) == AdmittedGuards(s.guards) - {g};
    }
  }

  lemma DropKeepsFifo(s: System, g: nat)
    requires Fifo(s) && Enabled(s, Drop(g))
    requires forall w | w in Next(s, Drop(g)).gate.waiting :: w in s.gate.waiting
    ensures Fifo(Next(s, Drop(g)))
  {
    var t := Next(s, Drop(g));
    forall i, j | 0 <= i < |t.admissions| && 0 <= j < |t.gate.waiting|
      ensures t.admissions[i] < t.gate.waiting[j].guard
    {
      assert t.gate.waiting[j] in s.gate.waiting;
      var k :| 0 <= k < |s.gate.waiting| && s.gate.waiting[k] == t.gate.waiting[j];
    }
  }

  /** Steps that leave the gate alone change one guard's phase or permit and nothing else. */
  predicate Quiet(s: System, step: Step)
    requires Enabled(s, step)
  {
    step.Enable? || step.Wake? || step.Deliver? || (step.Check? && !Admissible(s.gate, s.guards[step.g].ticket))
  }

  lemma QuietKeepsQueue(s: System, step: Step)
    requires Queue(s) && Enabled(s, step) && Quiet(s, step)
    ensures Queue(Next(s, step))
  {
    var t := Next(s, step);
    assert t.gate == s.gate;
    forall h: nat | h < |t.guards|
      ensures t.guards[h].Waits() == s.guards[h].Waits() && t.guards[h].ticket == s.guards[h].ticket
    {
    }
  }

  lemma QuietKeepsFifo(s: System, step: Step)
    requires Fifo(s) && Enabled(s, step) && Quiet(s, step)
    ensures Fifo(Next(s, step))
    ensures AdmittedGuards(Next(s, step).guards) == AdmittedGuards(s.guards)
  {
    var t := Next(s, step);
    forall h: nat | h < |t.guards|
      ensures t.guards[h].Waits() == s.guards[h].Waits()
      ensures t.guards[h].phase.Admitted? == s.guards[h].phase.Admitted?
    {
    }
  }

  lemma QuietKeepsWakeups(s: System, step: Step)
    requires Queue(s) && NoLostWakeup(s) && Enabled(s, step) && Quiet(s, step)
    ensures NoLostWakeup(Next(s, step))
  {
    if Eligible(s) {
      assert s.gate.waiting[0] in s.gate.waiting;
    }
  }

  lemma StepKeepsPermits(s: System, step: Step)
    requires forall g | 0 <= g < |s.guards| :: s.guards[g].PermitUnclaimed()
    requires Enabled(s, step)
    ensures forall g | 0 <= g < |Next(s, step).guards| :: Next(s, step).guards[g].PermitUnclaimed()
  {
  }

  lemma StepKeepsDeliveries(s: System, step: Step)
    requires Entries(s) && Enabled(s, step)
    requires forall w | w in Next(s, step).gate.waiting :: w.guard < |Next(s, step).guards|
    requires forall g | g in s.inFlight :: g < |s.guards|
    ensures forall g | g in Next(s, step).inFlight :: g < |Next(s, step).guards|
  {
    var t := Next(s, step);
    if t.gate.waiting != [] {
      assert t.gate.waiting[0] in t.gate.waiting;
    }
  }

  lemma StepKeepsInv(s: System, step: Step)
    requires Inv(s) && Enabled(s, step) && TicketFree(s, step)
    ensures Inv(Next(s, step))
  {
    var t := Next(s, step);
    if step.Arrive? {
      ArriveKeepsQueue(s, step);
      ArriveKeepsCount(s, step);
      ArriveKeepsFifo(s, step);
      ArriveKeepsWakeups(s, step);
    } else if Quiet(s, step) {
      QuietKeepsQueue(s, step);
      QuietKeepsFifo(s, step);
      QuietKeepsWakeups(s, step);
    } else {
      if step.Check? {
        AdmitKeepsQueue(s, step.g);
        AdmitKeepsFifo(s, step.g);
        AdmitKeepsCount(s, step.g);
      } else {
        DropKeepsQueue(s, step.g);
        DropKeepsFifo(s, step.g);
        DropKeepsCount(s, step.g);
      }
      AnnounceCovers(s, t.gate, t.guards, t.admissions);
    }
    StepKeepsPermits(s, step);
    StepKeepsDeliveries(s, step);
  }

  /** Every interleaving of arrivals, turns of the waiting loop, cancellations, releases and late
      notifications keeps the counting, queue, order and wake-up invariants. */
  lemma {:induction false} RunKeepsInv(s: System, steps: seq<Step>)
    requires Inv(s) && Legal(s, steps)
    ensures Inv(Run(s, steps))
    decreases |steps|
  {
    if steps != [] {
      StepKeepsInv(s, steps[0]);
      RunKeepsInv(Next(s, steps[0]), steps[1..]);
    }
  }

  lemma Reachable(steps: seq<Step>)
    requires Legal(Initial, steps)
    ensures Inv(Run(Initial, steps))
  {
    assert AdmittedGuards(Initial.guards) == {};
    RunKeepsInv(Initial, steps);
  }

  function Distance(phase: Phase): nat {
    match phase
    case Registered(_) => 1
    case Idle => 2
    case Parked(signalled) => if signalled then 3 else 4
    case _ => 0
  }

  /** From every state with an eligible head, the head is admitted by delivering what is already in flight and by its
      own turns, without help from any other guard. */
  lemma {:induction false} HeadProceeds(s: System) returns (steps: seq<Step>)
    requires Inv(s) && Eligible(s)
    ensures Legal(s, steps) && |steps| <= 4
    ensures var head := s.gate.waiting[0].guard;
      && (forall step | step in steps :: step in {Deliver(head), Wake(head), Enable(head), Check(head)})
      && Run(s, steps).admissions == s.admissions + [head]
    ensures s.gate.waiting[0].guard < |s.guards| && |steps| == Distance(s.guards[s.gate.waiting[0].guard].phase)
    decreases if s.gate.waiting[0].guard < |s.guards| then Distance(s.guards[s.gate.waiting[0].guard].phase) else 0
  {
    assert s.gate.waiting[0] in s.gate.waiting;
    var head := s.gate.waiting[0].guard;
    var phase := s.guards[head].phase;
    var step := if phase.Registered? then Check(head) else if phase.Idle? then Enable(head)
                else if phase == Parked(true) then Wake(head) else Deliver(head);
    if step.Check? {
      steps := [step];
      assert Legal(Next(s, step), []);
    } else {
      StepKeepsInv(s, step);
      var rest := HeadProceeds(Next(s, step));
      steps := [step] + rest;
      assert steps[1..] == rest;
    }
  }

  // ---- the head under every interleaving ---------------------------------------------------------

  ghost predicate EligibleHead(s: System, head: nat) {
    Eligible(s) && s.gate.waiting[0].guard == head < |s.guards| && s.guards[head].Waits()
  }

  /** The turns that the head's own task takes in its waiting loop. */
  predicate OwnTurn(step: Step, head: nat) {
    step == Enable(head) || step == Wake(head) || step == Check(head)
  }

  /** How many own turns a waiting head has left before it is admitted, notifications aside. */
  function TurnsLeft(phase: Phase): nat {
    if phase.Parked? then 3 else Distance(phase)
  }

  lemma RetainFront(waiting: seq<Waiter>, ticket: nat)
    requires waiting != [] && waiting[0].ticket != ticket
    ensures Retain(waiting, ticket) != [] && Retain(waiting, ticket)[0] == waiting[0]
  {
  }

  lemma DropKeepsHead(s: System, g: nat, head: nat)
    requires Inv(s) && EligibleHead(s, head) && Enabled(s, Drop(g)) && g != head
    ensures EligibleHead(Next(s, Drop(g)), head)
  {
    if s.guards[g].Waits() {
      var k := EntryOf(s, g);
      RetainFront(s.gate.waiting, s.guards[g].ticket);
    }
  }

  /** Nobody else can take an eligible head's place or push it back: under any step but its own admission and its own
      drop it stays the eligible head, and what it still has to do never grows and shrinks with each turn of its own. */
  lemma HeadStaysEligible(s: System, step: Step, head: nat)
    requires Inv(s) && EligibleHead(s, head) && Enabled(s, step) && step != Drop(head) && step != Check(head)
    ensures EligibleHead(Next(s, step), head)
    ensures Distance(Next(s, step).guards[head].phase) <= Distance(s.guards[head].phase)
    ensures TurnsLeft(Next(s, step).guards[head].phase) + (if OwnTurn(step, head) then 1 else 0) <=
            TurnsLeft(s.guards[head].phase)
  {
    match step
    case Check(g) =>
      if Admissible(s.gate, s.guards[g].ticket) {
        AdmitTakesHead(s, g);
      }
    case Drop(g) => DropKeepsHead(s, g, head);
    case _ =>
  }

  lemma HeadChecksIn(s: System, head: nat)
    requires Inv(s) && EligibleHead(s, head) && Enabled(s, Check(head))
    ensures Next(s, Check(head)).admissions == s.admissions + [head]
  {
    assert s.gate.waiting[0] in s.gate.waiting;
  }

  /** The number of own turns of the head in a run. */
  function OwnTurns(steps: seq<Step>, head: nat): nat {
    if steps == [] then 0 else (if OwnTurn(steps[0], head) then 1 else 0) + OwnTurns(steps[1..], head)
  }

  lemma {:induction false} AdmissionsStay(s: System, steps: seq<Step>, g: nat)
    requires Legal(s, steps) && g in s.admissions
    ensures g in Run(s, steps).admissions
    decreases |steps|
  {
    if steps != [] {
      AdmissionsStay(Next(s, steps[0]), steps[1..], g);
    }
  }

  /** Eligible capacity is never stranded, whatever the others do: in every run in which the head is not dropped, it has
      been admitted or it is still the eligible head, with as many turns used up as it has taken. */
  lemma {:induction false} HeadInEveryRun(s: System, steps: seq<Step>, head: nat)
    requires Inv(s) && EligibleHead(s, head) && Legal(s, steps) && Drop(head) !in steps
    ensures head in Run(s, steps).admissions || EligibleHead(Run(s, steps), head)
    ensures head !in Run(s, steps).admissions ==>
      OwnTurns(steps, head) + TurnsLeft(Run(s, steps).guards[head].phase) <= TurnsLeft(s.guards[head].phase)
    decreases |steps|
  {
    if steps != [] {
      var t := Next(s, steps[0]);
      if steps[0] == Check(head) {
        HeadChecksIn(s, head);
        AdmissionsStay(t, steps[1..], head);
      } else {
        HeadStaysEligible(s, steps[0], head);
        StepKeepsInv(s, steps[0]);
        HeadInEveryRun(t, steps[1..], head);
      }
    }
  }

  /** An eligible head that takes three turns of its own is admitted by then, in every interleaving. */
  lemma ThreeTurnsAdmit(s: System, steps: seq<Step>, head: nat)
    requires Inv(s) && EligibleHead(s, head) && Legal(s, steps) && Drop(head) !in steps
    requires OwnTurns(steps, head) >= 3
    ensures head in Run(s, steps).admissions
  {
    HeadInEveryRun(s, steps, head);
  }

  // ---- what the limits promise -------------------------------------------------------------------

  /** Nobody asked for more than `bound`. */
  ghost predicate Within(s: State, bound: nat) {
    s.active <= bound && forall w | w in s.waiting :: w.activeLimit <= bound
  }

  lemma {:induction false} RetainIsPart(waiting: seq<Waiter>, ticket: nat)
    ensures forall w | w in Retain(waiting, ticket) :: w in waiting && w.ticket != ticket
  {
    if waiting != [] {
      RetainIsPart(waiting[1..], ticket);
    }
  }

  /** While callers stay within a bound, so does the number of admitted guards. */
  lemma StepKeepsWithin(s: System, step: Step, bound: nat)
    requires Within(s.gate, bound) && Enabled(s, step) && (step.Arrive? ==> step.limit <= bound)
    ensures Within(Next(s, step).gate, bound)
  {
    match step
    case Drop(g) => RetainIsPart(s.gate.waiting, s.guards[g].ticket);
    case Check(g) =>
      if Admissible(s.gate, s.guards[g].ticket) {
        assert s.gate.waiting[0] in s.gate.waiting;
      }
    case _ =>
  }

  /** The step admits a guard: a newcomer past an empty queue, or the head at its check. */
  predicate Grants(s: System, step: Step)
    requires Enabled(s, step)
  {
    match step
    case Arrive(limit, _) => s.gate.waiting == [] && s.gate.active < limit
    case Check(g) => Admissible(s.gate, s.guards[g].ticket)
    case _ => false
  }

  /** Nothing left to deliver and every waiter asleep means that the head really has to wait. */
  lemma Quiescent(s: System)
    requires Inv(s)
    requires s.inFlight == multiset{}
    requires forall g: nat | g < |s.guards| && s.guards[g].Waits() :: s.guards[g].phase == Parked(false)
    ensures !Eligible(s)
  {
    if s.gate.waiting != [] {
      assert s.gate.waiting[0] in s.gate.waiting;
    }
  }

  /** Admission follows arrival: once `b` is admitted, an earlier guard has been admitted before it or has
      been dropped, and a guard that waits has never been overtaken. */
  lemma ArrivalOrder(s: System, a: nat, b: nat)
    requires Inv(s) && a < b < |s.guards| && b in s.admissions
    ensures !s.guards[a].Waits()
    ensures s.guards[a].phase.Dropped? || a in s.admissions
    ensures forall i, j | 0 <= i < |s.admissions| && 0 <= j < |s.admissions| && s.admissions[i] == a
      && s.admissions[j] == b :: i < j
  {
    var i :| 0 <= i < |s.admissions| && s.admissions[i] == b;
    forall w | w in s.gate.waiting
      ensures w.guard != a
    {
      var j :| 0 <= j < |s.gate.waiting| && s.gate.waiting[j] == w;
    }
  }

  /** An admission never exceeds the limit its own caller asked for, whatever limits the others have, and it goes to the
      head of the queue or, past an empty queue, to the newcomer. */
  lemma OwnLimit(s: System, step: Step)
    requires Inv(s) && Enabled(s, step) && Next(s, step).admissions != s.admissions
    ensures var t := Next(s, step);
      var g := if step.Arrive? then |s.guards| else s.gate.waiting[0].guard;
      && (if step.Arrive? then s.gate.waiting == [] else s.gate.waiting != [])
      && t.admissions == s.admissions + [g] && g < |t.guards|
      && 0 < t.gate.active <= t.guards[g].limit
      && t.guards[g].limit == if step.Arrive? then step.limit else s.guards[g].limit
  {
    if step.Check? {
      AdmitTakesHead(s, step.g);
      assert s.gate.waiting[0] in s.gate.waiting;
    }
  }

  // ---- what a reservation gets -------------------------------------------------------------------

  /** Only an admission from the queue and a drop notify, and exactly when there is an eligible head then, which is the
      one that is notified. */
  lemma NotifiesExactly(s: System, step: Step)
    requires Inv(s) && Enabled(s, step) && !step.Arrive? && !step.Deliver?
    ensures var t := Next(s, step);
      var opens := step.Drop? || (step.Check? && t.guards[step.g].phase.Admitted?);
      t.inFlight == if opens && Eligible(t) then s.inFlight + multiset{t.gate.waiting[0].guard} else s.inFlight
  {
    StepKeepsInv(s, step);
    var t := Next(s, step);
    if t.gate.waiting != [] {
      assert t.gate.waiting[0] in t.gate.waiting && Owns(t.guards, t.gate.waiting[0]);
    }
  }

  /** A delivered notification is not lost: it completes the future that is registered, or is stored for the next. */
  lemma DeliveryIsKept(s: System, g: nat)
    requires Enabled(s, Deliver(g))
    ensures var guard, after := s.guards[g], Next(s, Deliver(g)).guards[g];
      && 0 < s.inFlight[g] && Next(s, Deliver(g)).inFlight == s.inFlight[g := s.inFlight[g] - 1]
      && (guard.phase == Registered(false) ==> after.phase == Registered(true))
      && (guard.phase == Parked(false) ==> after.phase == Parked(true))
      && (guard.phase != Registered(false) && guard.phase != Parked(false) ==> after == guard.(permit := true))
  {
  }

  /** What every reservation is answered, over all states: it enters at once exactly past an empty queue and below its
      own limit, it is refused exactly when it cannot and the queue has reached its pending bound, and otherwise it goes
      to the end of the queue with the limit it asked for, and nobody else's entry changes. */
  lemma ReservationsExactly(s: System, limit: nat, pending: nat)
    requires Inv(s)
    ensures var t := Next(s, Arrive(limit, pending));
      var enters := s.gate.waiting == [] && s.gate.active < limit;
      && (t.gate.active == s.gate.active + 1 <==> enters)
      && (t == s <==> !enters && |s.gate.waiting| >= pending)
      && (t.gate.waiting != s.gate.waiting <==> !enters && |s.gate.waiting| < pending)
      && (enters ==> t.gate == s.gate.(active := s.gate.active + 1))
      && (!enters && |s.gate.waiting| < pending ==>
            && t.gate.active == s.gate.active && |t.guards| == |s.guards| + 1
            && t.gate.waiting[..|s.gate.waiting|] == s.gate.waiting
            && |t.gate.waiting| == |s.gate.waiting| + 1
            && Owns(t.guards, t.gate.waiting[|s.gate.waiting|])
            && t.gate.waiting[|s.gate.waiting|].guard == |s.guards|
            && t.guards[|s.guards|].limit == limit)
      && (t != s ==> |t.guards| == |s.guards| + 1 && t.guards[..|s.guards|] == s.guards
                     && t.guards[|s.guards|].limit == limit && !t.guards[|s.guards|].permit)
  {
  }

  /** Nobody asked for more than `bound` others before it. */
  ghost predicate AsksWithin(steps: seq<Step>, bound: nat) {
    forall step | step in steps && step.Arrive? :: step.pending <= bound
  }

  lemma {:induction false} RetainShrinks(waiting: seq<Waiter>, ticket: nat)
    ensures |Retain(waiting, ticket)| <= |waiting|
  {
    if waiting != [] {
      RetainShrinks(waiting[1..], ticket);
    }
  }

  lemma StepKeepsLength(s: System, step: Step, bound: nat)
    requires |s.gate.waiting| <= bound && Enabled(s, step) && (step.Arrive? ==> step.pending <= bound)
    ensures |Next(s, step).gate.waiting| <= bound
  {
    if step.Drop? {
      RetainShrinks(s.gate.waiting, s.guards[step.g].ticket);
    }
  }

  /** The queue never grows past the largest pending bound in use. */
  lemma {:induction false} QueueIsBounded(s: System, steps: seq<Step>, bound: nat)
    requires |s.gate.waiting| <= bound && Legal(s, steps) && AsksWithin(steps, bound)
    ensures |Run(s, steps).gate.waiting| <= bound
    decreases |steps|
  {
    if steps != [] {
      assert steps[0] in steps && forall step | step in steps[1..] :: step in steps;
      StepKeepsLength(s, steps[0], bound);
      QueueIsBounded(Next(s, steps[0]), steps[1..], bound);
    }
  }

  /** The tickets are what the queue depends on: a reservation that queues keeps the invariant exactly when
      the wrapped counter has not come back to the ticket of a live waiter. */
  lemma QueuedIffFresh(s: System, limit: nat, pending: nat)
    requires Inv(s) && Reserve(s.gate, |s.guards|, limit, pending).1.Queued?
    ensures Inv(Next(s, Arrive(limit, pending))) <==> s.gate.nextTicket !in (set w | w in s.gate.waiting :: w.ticket)
  {
    var step := Arrive(limit, pending);
    var t := Next(s, step);
    var n := |s.gate.waiting|;
    if s.gate.nextTicket in (set w | w in s.gate.waiting :: w.ticket) {
      var w :| w in s.gate.waiting && w.ticket == s.gate.nextTicket;
      var i :| 0 <= i < n && s.gate.waiting[i] == w;
      assert t.gate.waiting[i].ticket == t.gate.waiting[n].ticket;
    } else {
      forall i | 0 <= i < n
        ensures s.gate.waiting[i].ticket != s.gate.nextTicket
      {
        assert s.gate.waiting[i] in s.gate.waiting;
      }
      StepKeepsInv(s, step);
    }
  }

  // ---- a counter that has come round -------------------------------------------------------------

  lemma {:induction false} LegalExtends(s: System, steps: seq<Step>, step: Step)
    requires Legal(s, steps) && Enabled(Run(s, steps), step) && TicketFree(Run(s, steps), step)
    ensures Legal(s, steps + [step]) && Run(s, steps + [step]) == Next(Run(s, steps), step)
    decreases |steps|
  {
    var all := steps + [step];
    if steps == [] {
      assert all[1..] == [] && Legal(Next(s, step), []);
    } else {
      assert all[0] == steps[0] && all[1..] == steps[1..] + [step];
      LegalExtends(Next(s, steps[0]), steps[1..], step);
    }
  }

  /** One guard is admitted, one waits with ticket zero, and `n` later ones have come and gone. */
  predicate Cycled(s: System, n: nat) {
    && s.gate == State(1, [Waiter(0, 1, 1)], (n + 1) % TICKETS)
    && |s.guards| == n + 2 && s.guards[1].Waits()
  }

  lemma StartCycles() returns (steps: seq<Step>)
    ensures Legal(Initial, steps) && Cycled(Run(Initial, steps), 0)
  {
    LegalExtends(Initial, [], Arrive(1, 1));
    steps := [] + [Arrive(1, 1)];
    LegalExtends(Initial, steps, Arrive(1, 1));
    steps := steps + [Arrive(1, 1)];
  }

  lemma NextTicket(n: nat)
    requires n + 1 < TICKETS
    ensures (n + 1) % TICKETS == n + 1 != 0
    ensures (n + 2) % TICKETS == ((n + 1) % TICKETS + 1) % TICKETS
  {
  }

  lemma OneCycle(s: System, n: nat)
    requires Cycled(s, n) && n + 1 < TICKETS
    ensures TicketFree(s, Arrive(1, 2))
    ensures Enabled(Next(s, Arrive(1, 2)), Drop(n + 2))
    ensures Cycled(Next(Next(s, Arrive(1, 2)), Drop(n + 2)), n + 1)
  {
    NextTicket(n);
    var t := Next(s, Arrive(1, 2));
    var kept, gone := Waiter(0, 1, 1), Waiter(n + 1, 1, n + 2);
    assert t.gate.waiting == [kept, gone] && t.guards[n + 2] == Guard(1, n + 1, Idle, false);
    RetainAt([kept, gone], 1);
    assert [kept, gone][..1] + [kept, gone][2..] == [kept];
  }

  lemma {:induction false} Cycles(n: nat) returns (steps: seq<Step>)
    requires n < TICKETS
    ensures Legal(Initial, steps) && Cycled(Run(Initial, steps), n)
  {
    if n == 0 {
      steps := StartCycles();
    } else {
      steps := Cycles(n - 1);
      OneCycle(Run(Initial, steps), n - 1);
      LegalExtends(Initial, steps, Arrive(1, 2));
      LegalExtends(Initial, steps + [Arrive(1, 2)], Drop(n + 1));
      steps := steps + [Arrive(1, 2)] + [Drop(n + 1)];
    }
  }

  /** The counter does come round onto a live waiter: some run in which every ticket was free reaches a state whose next
      reservation queues under a ticket that is taken. */
  lemma TicketsComeRound() returns (steps: seq<Step>)
    ensures Legal(Initial, steps) && Inv(Run(Initial, steps))
    ensures var s := Run(Initial, steps);
      && Reserve(s.gate, |s.guards|, 1, 2).1 == Queued(0)
      && !TicketFree(s, Arrive(1, 2)) && !Inv(Next(s, Arrive(1, 2)))
  {
    steps := Cycles(TICKETS - 1);
    Reachable(steps);
    var s := Run(Initial, steps);
    assert s.gate.waiting[0].ticket == 0 == s.gate.nextTicket;
    assert s.gate.waiting[0] in s.gate.waiting;
    QueuedIffFresh(s, 1, 2);
  }

  /** The waiting guard has no entry left, so nothing will ever name it to be notified. */
  ghost predicate Stranded(s: System, g: nat) {
    && g < |s.guards| && s.guards[g].Waits()
    && forall w | w in s.gate.waiting :: w.guard != g
  }

  /** What a taken ticket does: two waiting guards share it, and dropping either one strands the other. */
  lemma TakenTicketStrands(s: System, limit: nat, pending: nat, k: nat)
    requires Inv(s) && Reserve(s.gate, |s.guards|, limit, pending).1.Queued?
    requires k < |s.gate.waiting| && s.gate.waiting[k].ticket == s.gate.nextTicket
    ensures var t, holder, newcomer := Next(s, Arrive(limit, pending)), s.gate.waiting[k].guard, |s.guards|;
      && holder < newcomer < |t.guards| && t.guards[holder].Waits() && t.guards[newcomer].Waits()
      && t.guards[holder].ticket == t.guards[newcomer].ticket
      && Enabled(t, Drop(holder)) && Stranded(Next(t, Drop(holder)), newcomer)
      && Enabled(t, Drop(newcomer)) && Stranded(Next(t, Drop(newcomer)), holder)
  {
    var t, holder, newcomer := Next(s, Arrive(limit, pending)), s.gate.waiting[k].guard, |s.guards|;
    assert s.gate.waiting[k] in s.gate.waiting;
    RetainIsPart(t.gate.waiting, s.gate.nextTicket);
    OwnTickets(t, holder);
    OwnTickets(t, newcomer);
  }

  /** Every entry of a waiting guard carries that guard's ticket. */
  lemma OwnTickets(t: System, g: nat)
    requires Entries(t) && g < |t.guards| && t.guards[g].Waits()
    ensures forall w | w in t.gate.waiting && w.guard == g :: w.ticket == t.guards[g].ticket
  {
  }
}
