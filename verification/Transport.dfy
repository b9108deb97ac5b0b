/** Request admission of the MCP transport, src/frontends/mcp_transport.rs: `BoundedStdio::receive`, `send` and
    `admit_request`. One step is what happens between two awaits; `receive` may be dropped at any await. */
module Transport {
  import opened Wrappers

  type Id = nat

  datatype Kind = Initialize | Ping | Call

  datatype Item =
    | Request(id: Id, kind: Kind)
    | Cancelled(target: Option<Id>)
    | Notification
    | Reply

  /** Decoded requests are numbered in decode order. */
  datatype Numbered = Numbered(id: Id, serial: nat)

  datatype Staged = Staged(item: Item, serial: nat)

  datatype Pending = Pending(serial: nat, cancelled: bool)

  /** How a forwarded request gave its slot back. */
  datatype Settled = Settled(serial: nat, wrote: bool)

  /** The transport object. `free` and `control` are the permits left in the two semaphores. */
  datatype Port = Port(free: int, pending: map<Id, Pending>, control: int, initializing: bool,
                       staged: Option<Staged>, deferred: Option<Numbered>, rejected: Option<Numbered>)

  /** History: the decoded requests, then what became of them. */
  datatype Log = Log(requests: seq<Id>, forwarded: seq<nat>, overloaded: seq<nat>, withdrawn: seq<nat>,
                     settled: seq<Settled>)

  /** `reading` says that the receive future holds the control permit while it awaits the decoder; `handlers` counts
      the live notification handlers, each of which holds one. `sending` maps the ids whose response is on its way
      to whether they were found cancelled. */
  datatype State = State(port: Port, ended: bool, reading: bool, handlers: nat, sending: map<Id, bool>, log: Log)

  function Idle(slots: nat): Port {
    Port(slots, map[], 1, true, None, None, None)
  }

  function Initial(slots: nat): State {
    State(Idle(slots), false, false, 0, map[], Log([], [], [], [], []))
  }

  // ---- the staged frame --------------------------------------------------------------------------

  /** What a pass does with the staged frame. */
  datatype Verdict =
    | End              // a call before initialization, or an id that is pending or deferred
    | Forward
    | Defer
    | Refuse           // answer with the overload error
    | CancelPending
    | CancelDeferred
    | Notify           // hand a notification on, with the control permit
    | Return           // hand anything else on

  function Judge(p: Port): Verdict
    requires p.staged.Some?
  {
    match p.staged.value.item
    case Request(id, kind) =>
      if p.initializing && kind.Call? then End
      else if id in p.pending || (p.deferred.Some? && p.deferred.value.id == id) then End
      else if p.deferred.Some? then Refuse
      else if p.free > 0 then Forward else Defer
    case Cancelled(target) =>
      if target.Some? && target.value in p.pending then CancelPending
      else if target.Some? && p.deferred.Some? && p.deferred.value.id == target.value then CancelDeferred
      else Notify
    case Notification => Notify
    case Reply => Return
  }

  function StagedRequest(p: Port): Numbered
    requires p.staged.Some? && p.staged.value.item.Request?
  {
    Numbered(p.staged.value.item.id, p.staged.value.serial)
  }

  predicate StillInitializing(p: Port)
    requires p.staged.Some?
  {
    p.initializing && !(p.staged.value.item.Request? && p.staged.value.item.kind.Initialize?)
  }

  /** `admit_request`, with a permit in hand and the id free. */
  function Admit(p: Port, request: Numbered): Port {
    p.(free := p.free - 1, pending := p.pending[request.id := Pending(request.serial, false)])
  }

  function HandlePort(p: Port): Port
    requires p.staged.Some?
  {
    var initializing := StillInitializing(p);
    var done := p.(staged := None, control := p.control + 1, initializing := initializing);
    match Judge(p)
    case End => p.(initializing := initializing)
    case Forward => Admit(done, StagedRequest(p))
    case Defer => done.(deferred := Some(StagedRequest(p)))
    case Refuse => p.(rejected := Some(StagedRequest(p)), staged := None, initializing := initializing)
    case CancelPending =>
      var id := p.staged.value.item.target.value;
      done.(pending := p.pending[id := p.pending[id].(cancelled := true)])
    case CancelDeferred => done.(deferred := None)
    case Notify => p.(staged := None)
    case Return => done
  }

  function HandleLog(p: Port, log: Log): Log
    requires p.staged.Some?
  {
    match Judge(p)
    case Forward => log.(forwarded := log.forwarded + [p.staged.value.serial])
    case Refuse => log.(overloaded := log.overloaded + [p.staged.value.serial])
    case CancelDeferred => log.(withdrawn := log.withdrawn + [p.deferred.value.serial])
    case _ => log
  }

  class BoundedStdio {
    var free: int
    var pending: map<Id, Pending>
    var control: int
    var initializing: bool
    var staged: Option<Staged>
    var deferred: Option<Numbered>
    var rejected: Option<Numbered>

    ghost function View(): Port
      reads this
    {
      Port(free, pending, control, initializing, staged, deferred, rejected)
    }

    constructor (slots: nat)
      ensures View() == Idle(slots)
    {
      free, pending, control, initializing := slots, map[], 1, true;
      staged, deferred, rejected := None, None, None;
    }

    method AdmitRequest(request: Numbered) returns (admitted: bool)
      modifies this
      ensures admitted == (request.id !in old(pending))
      ensures View() == if admitted then Admit(old(View()), request) else old(View())
    {
      if request.id in pending {
        return false;
      }
      free := free - 1;
      pending := pending[request.id := Pending(request.serial, false)];
      return true;
    }

    method HandleCancellation(target: Option<Id>)
      requires staged.Some? && staged.value.item == Cancelled(target)
      modifies this
      ensures View() == HandlePort(old(View()))
    {
      if target.Some? && target.value in pending {
        pending := pending[target.value := pending[target.value].(cancelled := true)];
        control := control + 1;
      } else if target.Some? && deferred.Some? && deferred.value.id == target.value {
        deferred := None;
        control := control + 1;
      }
      staged := None;
    }

    method HandleRequest(request: Numbered, kind: Kind) returns (continues: bool)
      requires staged == Some(Staged(Request(request.id, kind), request.serial))
      modifies this
      ensures View() == HandlePort(old(View()))
      ensures continues == !old(Judge(View())).End?
    {
      if initializing && kind.Call? {
        return false;
      }
      if kind.Initialize? {
        initializing := false;
      }
      if request.id in pending || (deferred.Some? && deferred.value.id == request.id) {
        return false;
      }
      staged := None;
      if deferred.Some? {
        rejected := Some(request);
        return true;
      }
      control := control + 1;
      if free > 0 {
        continues := AdmitRequest(request);
        return;
      }
      deferred := Some(request);
      return true;
    }

    /** The part of a pass after the frame is staged; false ends the session. */
    method HandleFrame() returns (continues: bool)
      requires staged.Some?
      modifies this
      ensures View() == HandlePort(old(View()))
      ensures continues == !old(Judge(View())).End?
    {
      continues := true;
      match staged.value.item {
        case Cancelled(target) => HandleCancellation(target);
        case Request(id, kind) => continues := HandleRequest(Numbered(id, staged.value.serial), kind);
        case Notification => staged := None;
        case Reply =>
          staged := None;
          control := control + 1;
      }
    }

    /** The end of `send` for a pending id, once nothing is left to write. */
    method FinishSend(id: Id)
      requires id in pending
      modifies this
      ensures View() == Settle(old(View()), id)
    {
      pending := pending - {id};
      free := free + 1;
    }
  }

  function Settle(p: Port, id: Id): Port {
    p.(free := p.free + 1, pending := p.pending - {id})
  }

  // ---- a session ---------------------------------------------------------------------------------

  datatype Step =
    | RejectionSent
    | RejectionFailed
    | DeferredExpired
    | AdmitDeferred
    | BeginRead
    | Interrupt                          // the receive future is dropped
    | InputEnded                         // nothing more to decode, or no control permit in time
    | Decode(item: Item)
    | Handle
    | HandlerReturned
    | SendStarted(id: Id)
    | SendDone(id: Id, delivered: bool)  // the write returned, with or without an error
    | SendAborted(id: Id)                // too large, or timed out: the session fails

  predicate Receiving(s: State) { !s.ended && s.port.rejected.None? }

  /** `Handle` covers more than the loop allows: it may run although a slot was freed since the loop last looked. */
  predicate Enabled(s: State, step: Step) {
    var p := s.port;
    match step
    case RejectionSent => !s.ended && p.rejected.Some?
    case RejectionFailed => !s.ended && p.rejected.Some?
    case DeferredExpired => Receiving(s) && p.deferred.Some?
    case AdmitDeferred =>
      Receiving(s) && p.deferred.Some? && p.free > 0 && (p.staged.Some? ==> p.staged.value.item.Request?)
    case BeginRead => Receiving(s) && p.staged.None? && !s.reading && p.control > 0
    case Interrupt => s.reading
    case InputEnded => Receiving(s) && p.staged.None?
    case Decode(_) => Receiving(s) && s.reading && p.staged.None?
    case Handle => Receiving(s) && p.staged.Some?
    case HandlerReturned => s.handlers > 0
    case SendStarted(id) => id in p.pending && id !in s.sending
    case SendDone(id, delivered) => id in p.pending && id in s.sending && (s.sending[id] ==> delivered)
    case SendAborted(id) => id in p.pending && id in s.sending && !s.sending[id]
  }

  function StopReading(s: State): State {
    if s.reading then s.(reading := false, port := s.port.(control := s.port.control + 1)) else s
  }

  function Next(s: State, step: Step): State
    requires Enabled(s, step)
  {
    var p := s.port;
    match step
    case RejectionSent => s.(port := p.(rejected := None, control := p.control + 1))
    case RejectionFailed => s.(ended := true)
    case DeferredExpired => StopReading(s).(ended := true)
    case AdmitDeferred =>
      // A read in progress is dropped; `admit_request` would end the session for an id already pending.
      var request := p.deferred.value;
      var taken := p.(deferred := None, control := if s.reading then p.control + 1 else p.control);
      if request.id in p.pending then s.(port := taken, reading := false, ended := true)
      else s.(port := Admit(taken, request), reading := false,
              log := s.log.(forwarded := s.log.forwarded + [request.serial]))
    case BeginRead => s.(reading := true, port := p.(control := p.control - 1))
    case Interrupt => StopReading(s)
    case InputEnded => StopReading(s).(ended := true)
    case Decode(item) =>
      s.(reading := false, port := p.(staged := Some(Staged(item, |s.log.requests|))),
         log := if item.Request? then s.log.(requests := s.log.requests + [item.id]) else s.log)
    case Handle =>
      s.(port := HandlePort(p), log := HandleLog(p, s.log), ended := Judge(p).End?,
         handlers := if Judge(p).Notify? then s.handlers + 1 else s.handlers)
    case HandlerReturned => s.(handlers := s.handlers - 1, port := p.(control := p.control + 1))
    case SendStarted(id) => s.(sending := s.sending[id := p.pending[id].cancelled])
    case SendDone(id, delivered) =>
      s.(port := Settle(p, id), sending := s.sending - {id},
         log := s.log.(settled := s.log.settled + [Settled(p.pending[id].serial, delivered && !s.sending[id])]))
    case SendAborted(id) => s.(ended := true)
  }

  // ---- invariant ---------------------------------------------------------------------------------

  function One(holds: bool): nat { if holds then 1 else 0 }

  function Holders(p: Port): int {
    p.control + One(p.staged.Some?) + One(p.rejected.Some?)
  }

  /** Every slot is free or held by a pending request; the one control permit is free or has one holder. */
  ghost predicate Permits(s: State, slots: nat) {
    && s.port.free >= 0 && s.port.free + |s.port.pending| == slots
    && s.port.control >= 0
    && Holders(s.port) + One(s.reading) + s.handlers == 1
  }

  predicate HoldsStaged(p: Port, n: nat) {
    p.staged.Some? && p.staged.value.item.Request? && p.staged.value.serial == n
  }

  predicate HoldsDeferred(p: Port, n: nat) {
    p.deferred.Some? && p.deferred.value.serial == n
  }

  function Count(serials: seq<nat>, n: nat): nat { multiset(serials)[n] }

  /** How many fates request `n` has: forwarded, refused, withdrawn, or still held. */
  function Fates(p: Port, log: Log, n: nat): nat {
    Count(log.forwarded, n) + Count(log.overloaded, n) + Count(log.withdrawn, n)
      + One(HoldsStaged(p, n)) + One(HoldsDeferred(p, n))
  }

  /** Every decoded request has exactly one fate. */
  ghost predicate OneFate(s: State) {
    forall n: nat :: Fates(s.port, s.log, n) == One(n < |s.log.requests|)
  }

  /** Requests are forwarded in decode order: what is held comes after them, the deferred one first. */
  ghost predicate Ordered(s: State) {
    && (forall i, j | 0 <= i < j < |s.log.forwarded| :: s.log.forwarded[i] < s.log.forwarded[j])
    && (forall i | 0 <= i < |s.log.forwarded| :: s.log.forwarded[i] < |s.log.requests|)
    && (s.port.deferred.Some? ==>
          && s.port.deferred.value.serial < |s.log.requests|
          && forall i | 0 <= i < |s.log.forwarded| :: s.log.forwarded[i] < s.port.deferred.value.serial)
    && (s.port.staged.Some? && s.port.staged.value.item.Request? ==>
          && s.port.staged.value.serial < |s.log.requests|
          && (forall i | 0 <= i < |s.log.forwarded| :: s.log.forwarded[i] < s.port.staged.value.serial)
          && (s.port.deferred.Some? ==> s.port.deferred.value.serial < s.port.staged.value.serial))
  }

  /** An overload response in output never carries an id that is pending or deferred, and a deferred id is not
      pending, so its admission cannot fail. */
  ghost predicate IdsApart(s: State) {
    && (s.port.deferred.Some? ==> s.port.deferred.value.id !in s.port.pending)
    && (s.port.rejected.Some? ==>
          && s.port.rejected.value.id !in s.port.pending
          && (s.port.deferred.Some? ==> s.port.rejected.value.id != s.port.deferred.value.id))
  }

  /** The request decoded as number `serial` carried this id. */
  predicate Numbers(requests: seq<Id>, serial: nat, id: Id) {
    serial < |requests| && requests[serial] == id
  }

  ghost predicate KnowsIds(s: State) {
    && (forall id | id in s.port.pending :: Numbers(s.log.requests, s.port.pending[id].serial, id))
    && (s.port.deferred.Some? ==>
          Numbers(s.log.requests, s.port.deferred.value.serial, s.port.deferred.value.id))
    && (s.port.staged.Some? && s.port.staged.value.item.Request? ==>
          Numbers(s.log.requests, s.port.staged.value.serial, s.port.staged.value.item.id))
  }

  ghost predicate SendsPending(s: State) {
    forall id | id in s.sending :: id in s.port.pending && (s.sending[id] ==> s.port.pending[id].cancelled)
  }

  /** A forwarded request holds its slot or has been settled; nothing is settled twice. */
  ghost predicate SettledOnce(s: State) {
    && (forall id | id in s.port.pending :: s.port.pending[id].serial in s.log.forwarded)
    && (forall i | 0 <= i < |s.log.settled| :: s.log.settled[i].serial in s.log.forwarded)
    && (forall i, j | 0 <= i < j < |s.log.settled| :: s.log.settled[i].serial != s.log.settled[j].serial)
    && (forall i, id | 0 <= i < |s.log.settled| && id in s.port.pending ::
          s.log.settled[i].serial != s.port.pending[id].serial)
  }

  ghost predicate Held(s: State, n: nat) { exists id :: id in s.port.pending && s.port.pending[id].serial == n }
  ghost predicate Done(s: State, n: nat) { exists x :: x in s.log.settled && x.serial == n }

  ghost predicate Accounted(s: State) {
    forall n | n in s.log.forwarded :: Held(s, n) || Done(s, n)
  }

  ghost predicate Inv(s: State, slots: nat) {
    && Permits(s, slots) && OneFate(s) && Ordered(s)
    && IdsApart(s) && KnowsIds(s) && SendsPending(s) && SettledOnce(s) && Accounted(s)
  }

  // ---- one step keeps it -------------------------------------------------------------------------

  lemma StepKeepsPermits(s: State, step: Step, slots: nat)
    requires Permits(s, slots) && Enabled(s, step)
    ensures Permits(Next(s, step), slots)
  {
    if step.Handle? {
      HandleKeepsPermits(s.port);
    } else if step.SendDone? {
      SettleKeepsPermits(s, step, slots);
    } else {
      RestKeepsPermits(s, step, slots);
    }
  }

  lemma SettleKeepsPermits(s: State, step: Step, slots: nat)
    requires Permits(s, slots) && Enabled(s, step) && step.SendDone?
    ensures Permits(Next(s, step), slots)
  {
    var p := s.port;
    assert p.pending.Keys == Settle(p, step.id).pending.Keys + {step.id};
    assert |p.pending| == |p.pending.Keys| && |Settle(p, step.id).pending| == |Settle(p, step.id).pending.Keys|;
  }

  lemma RestKeepsPermits(s: State, step: Step, slots: nat)
    requires Permits(s, slots) && Enabled(s, step) && !step.Handle? && !step.SendDone?
    ensures Permits(Next(s, step), slots)
  {
  }

  lemma HandleKeepsPermits(p: Port)
    requires p.staged.Some? && p.rejected.None? && p.free >= 0
    ensures var q := HandlePort(p);
      && q.free >= 0 && q.free + |q.pending| == p.free + |p.pending| && q.control >= p.control
      && Holders(q) + One(Judge(p).Notify?) == Holders(p)
  {
    if Judge(p).CancelPending? {
      assert HandlePort(p).pending.Keys == p.pending.Keys;
      assert |HandlePort(p).pending| == |HandlePort(p).pending.Keys| && |p.pending| == |p.pending.Keys|;
    }
  }

  /** The step forwards `r`, the next request in line. */
  predicate Admits(s: State, t: State, r: Numbered) {
    && r.id !in s.port.pending && t.port.pending == s.port.pending[r.id := Pending(r.serial, false)]
    && t.log.forwarded == s.log.forwarded + [r.serial]
    && t.log.settled == s.log.settled && t.sending == s.sending && t.log.requests == s.log.requests
  }

  /** No request is forwarded or settled; pending ones stay, and stay cancelled. */
  ghost predicate Leaves(s: State, t: State) {
    && t.log.forwarded == s.log.forwarded && t.log.settled == s.log.settled && s.log.requests <= t.log.requests
    && t.port.pending.Keys == s.port.pending.Keys
    && forall id | id in s.port.pending ::
         && t.port.pending[id].serial == s.port.pending[id].serial
         && (s.port.pending[id].cancelled ==> t.port.pending[id].cancelled)
  }

  predicate Forwards(s: State, step: Step)
    requires Enabled(s, step)
  {
    (step.AdmitDeferred? && s.port.deferred.value.id !in s.port.pending) || (step.Handle? && Judge(s.port).Forward?)
  }

  function InLine(s: State, step: Step): Numbered
    requires Enabled(s, step) && Forwards(s, step)
  {
    if step.AdmitDeferred? then s.port.deferred.value else StagedRequest(s.port)
  }

  lemma StepKinds(s: State, step: Step)
    requires Enabled(s, step)
    ensures if Forwards(s, step) then Admits(s, Next(s, step), InLine(s, step))
            else step.SendDone? || Leaves(s, Next(s, step))
  {
  }

  /** Nothing is forwarded or decoded; what was held may be let go. */
  predicate LetsGo(s: State, t: State) {
    && t.log.forwarded == s.log.forwarded && t.log.requests == s.log.requests
    && t.port.pending.Keys == s.port.pending.Keys
    && (forall id | id in s.port.pending :: t.port.pending[id].serial == s.port.pending[id].serial)
    && (t.port.deferred == s.port.deferred || t.port.deferred.None?)
    && (t.port.staged == s.port.staged || t.port.staged.None?)
    && (t.port.rejected == s.port.rejected || t.port.rejected.None?)
  }

  lemma LettingGoKeepsHolds(s: State, t: State)
    requires LetsGo(s, t)
    ensures Ordered(s) ==> Ordered(t)
    ensures KnowsIds(s) ==> KnowsIds(t)
    ensures IdsApart(s) ==> IdsApart(t)
  {
  }

  predicate Queues(s: State, step: Step)
    requires Enabled(s, step)
  {
    step.Handle? && (Judge(s.port).Defer? || Judge(s.port).Refuse?)
  }

  lemma MostStepsLetGo(s: State, step: Step)
    requires Enabled(s, step) && !Forwards(s, step) && !Queues(s, step) && !step.SendDone? && !step.Decode?
    ensures LetsGo(s, Next(s, step))
  {
  }

  lemma ForwardKeepsHolds(s: State, step: Step)
    requires Enabled(s, step) && Forwards(s, step)
    ensures Ordered(s) ==> Ordered(Next(s, step))
    ensures KnowsIds(s) ==> KnowsIds(Next(s, step))
    ensures IdsApart(s) ==> IdsApart(Next(s, step))
  {
  }

  lemma QueueKeepsHolds(s: State, step: Step)
    requires Enabled(s, step) && Queues(s, step)
    ensures Ordered(s) ==> Ordered(Next(s, step))
    ensures KnowsIds(s) ==> KnowsIds(Next(s, step))
    ensures IdsApart(s) ==> IdsApart(Next(s, step))
  {
  }

  lemma StepKeepsHolds(s: State, step: Step)
    requires Ordered(s) && KnowsIds(s) && IdsApart(s) && Enabled(s, step)
    ensures Ordered(Next(s, step)) && KnowsIds(Next(s, step)) && IdsApart(Next(s, step))
  {
    if Forwards(s, step) {
      ForwardKeepsHolds(s, step);
    } else if Queues(s, step) {
      QueueKeepsHolds(s, step);
    } else if !step.SendDone? && !step.Decode? {
      MostStepsLetGo(s, step);
      LettingGoKeepsHolds(s, Next(s, step));
    }
  }

  lemma AppendCounts(serials: seq<nat>, x: nat, n: nat)
    ensures Count(serials + [x], n) == Count(serials, n) + One(n == x)
  {
  }

  /** What a verdict lets go of, which is what it logs. */
  function Logs(p: Port): Option<nat>
    requires p.staged.Some?
  {
    match Judge(p)
    case Forward => Some(p.staged.value.serial)
    case Refuse => Some(p.staged.value.serial)
    case CancelDeferred => Some(p.deferred.value.serial)
    case _ => None
  }

  lemma HandleLetsGo(p: Port, n: nat)
    requires p.staged.Some?
    ensures var q := HandlePort(p);
      One(HoldsStaged(p, n)) + One(HoldsDeferred(p, n))
        == One(HoldsStaged(q, n)) + One(HoldsDeferred(q, n)) + One(Logs(p) == Some(n))
  {
    if Judge(p).End? {
      assert HandlePort(p).staged == p.staged && HandlePort(p).deferred == p.deferred;
    } else {
      assert HandlePort(p).staged.None?;
    }
  }

  lemma HandleLogs(p: Port, log: Log, n: nat)
    requires p.staged.Some?
    ensures var after := HandleLog(p, log);
      Count(after.forwarded, n) + Count(after.overloaded, n) + Count(after.withdrawn, n)
        == Count(log.forwarded, n) + Count(log.overloaded, n) + Count(log.withdrawn, n) + One(Logs(p) == Some(n))
  {
    if Logs(p).Some? {
      AppendCounts(log.forwarded, Logs(p).value, n);
      AppendCounts(log.overloaded, Logs(p).value, n);
      AppendCounts(log.withdrawn, Logs(p).value, n);
    }
  }

  /** Handling moves a request from one fate to the next. */
  lemma HandleMovesFate(p: Port, log: Log, n: nat)
    requires p.staged.Some?
    ensures Fates(HandlePort(p), HandleLog(p, log), n) == Fates(p, log, n)
  {
    HandleLetsGo(p, n);
    HandleLogs(p, log, n);
  }

  lemma StepMovesFate(s: State, step: Step, n: nat)
    requires IdsApart(s) && Enabled(s, step)
    ensures Fates(Next(s, step).port, Next(s, step).log, n) ==
      Fates(s.port, s.log, n) + One(step.Decode? && step.item.Request? && n == |s.log.requests|)
  {
    if step.Handle? {
      HandleMovesFate(s.port, s.log, n);
    } else if step.AdmitDeferred? {
      AppendCounts(s.log.forwarded, s.port.deferred.value.serial, n);
    }
  }

  lemma StepKeepsSends(s: State, step: Step)
    requires SendsPending(s) && Enabled(s, step)
    ensures SendsPending(Next(s, step))
  {
    StepKinds(s, step);
  }

  lemma AdmissionKeepsSettled(s: State, t: State, r: Numbered)
    requires SettledOnce(s) && Accounted(s) && Admits(s, t, r) && r.serial !in s.log.forwarded
    ensures SettledOnce(t) && Accounted(t)
  {
    forall n | n in t.log.forwarded
      ensures Held(t, n) || Done(t, n)
    {
      if n == r.serial {
        assert t.port.pending[r.id].serial == n;
      } else if Held(s, n) {
        var id :| id in s.port.pending && s.port.pending[id].serial == n;
        assert t.port.pending[id].serial == n;
      }
    }
  }

  lemma LeavingKeepsSettled(s: State, t: State)
    requires SettledOnce(s) && Accounted(s) && Leaves(s, t)
    ensures SettledOnce(t) && Accounted(t)
  {
    forall n | n in t.log.forwarded
      ensures Held(t, n) || Done(t, n)
    {
      if Held(s, n) {
        var id :| id in s.port.pending && s.port.pending[id].serial == n;
        assert t.port.pending[id].serial == n;
      }
    }
  }

  /** The finished send frees one id and settles its request. */
  predicate Finishes(s: State, t: State, id: Id) {
    && id in s.port.pending && t.port.pending == s.port.pending - {id}
    && t.log.forwarded == s.log.forwarded
    && |t.log.settled| == |s.log.settled| + 1 && t.log.settled[..|s.log.settled|] == s.log.settled
    && t.log.settled[|s.log.settled|].serial == s.port.pending[id].serial
  }

  lemma FinishKeepsAccounted(s: State, t: State, id: Id)
    requires Accounted(s) && Finishes(s, t, id)
    ensures Accounted(t)
  {
    forall n | n in t.log.forwarded
      ensures Held(t, n) || Done(t, n)
    {
      if n == s.port.pending[id].serial {
        assert t.log.settled[|s.log.settled|] in t.log.settled;
      } else if Held(s, n) {
        var other :| other in s.port.pending && s.port.pending[other].serial == n;
        assert other in t.port.pending;
      } else {
        var x :| x in s.log.settled && x.serial == n;
        assert x in t.log.settled[..|s.log.settled|];
      }
    }
  }

  lemma FinishKeepsSettled(s: State, t: State, id: Id)
    requires SettledOnce(s) && KnowsIds(s) && Finishes(s, t, id)
    ensures SettledOnce(t)
  {
    var n := |s.log.settled|;
    assert forall i | 0 <= i < n :: t.log.settled[i] == s.log.settled[i];
    forall other | other in t.port.pending
      ensures t.port.pending[other].serial != t.log.settled[n].serial
    {
      assert Numbers(s.log.requests, s.port.pending[other].serial, other);
      assert Numbers(s.log.requests, s.port.pending[id].serial, id);
    }
  }

  lemma DoneKeepsSettled(s: State, step: Step)
    requires SettledOnce(s) && Accounted(s) && KnowsIds(s) && step.SendDone? && Enabled(s, step)
    ensures SettledOnce(Next(s, step)) && Accounted(Next(s, step))
  {
    FinishKeepsAccounted(s, Next(s, step), step.id);
    FinishKeepsSettled(s, Next(s, step), step.id);
  }

  lemma StepKeepsSettled(s: State, step: Step)
    requires Ordered(s) && KnowsIds(s) && SettledOnce(s) && Accounted(s) && Enabled(s, step)
    ensures SettledOnce(Next(s, step)) && Accounted(Next(s, step))
  {
    StepKinds(s, step);
    if Forwards(s, step) {
      AdmissionKeepsSettled(s, Next(s, step), InLine(s, step));
    } else if step.SendDone? {
      DoneKeepsSettled(s, step);
    } else {
      LeavingKeepsSettled(s, Next(s, step));
    }
  }

  lemma StepCountsRequests(s: State, step: Step)
    requires Enabled(s, step)
    ensures |Next(s, step).log.requests| == |s.log.requests| + One(step.Decode? && step.item.Request?)
  {
  }

  lemma StepKeepsFates(s: State, step: Step)
    requires OneFate(s) && IdsApart(s) && Enabled(s, step)
    ensures OneFate(Next(s, step))
  {
    forall n: nat
      ensures Fates(Next(s, step).port, Next(s, step).log, n) ==
        Fates(s.port, s.log, n) + One(step.Decode? && step.item.Request? && n == |s.log.requests|)
    {
      StepMovesFate(s, step, n);
    }
    StepCountsRequests(s, step);
  }

  lemma StepKeepsInv(s: State, step: Step, slots: nat)
    requires Inv(s, slots) && Enabled(s, step)
    ensures Inv(Next(s, step), slots)
  {
    StepKeepsPermits(s, step, slots);
    StepKeepsFates(s, step);
    StepKeepsHolds(s, step);
    StepKeepsSends(s, step);
    StepKeepsSettled(s, step);
  }

  // ---- whole sessions ----------------------------------------------------------------------------

  ghost predicate Legal(s: State, steps: seq<Step>)
    decreases |steps|
  {
    steps == [] || (Enabled(s, steps[0]) && Legal(Next(s, steps[0]), steps[1..]))
  }

  ghost function Run(s: State, steps: seq<Step>): State
    requires Legal(s, steps)
    decreases |steps|
  {
    if steps == [] then s else Run(Next(s, steps[0]), steps[1..])
  }

  /** Slots and the control permit are conserved, fates are exclusive, order and ids hold: over any session, with
      `receive` interrupted anywhere. */
  lemma {:induction false} RunKeepsInv(s: State, steps: seq<Step>, slots: nat)
    requires Inv(s, slots) && Legal(s, steps)
    ensures Inv(Run(s, steps), slots)
    decreases |steps|
  {
    if steps != [] {
      StepKeepsInv(s, steps[0], slots);
      RunKeepsInv(Next(s, steps[0]), steps[1..], slots);
    }
  }

  lemma SessionKeepsInv(slots: nat, steps: seq<Step>)
    requires Legal(Initial(slots), steps)
    ensures Inv(Run(Initial(slots), steps), slots)
  {
    RunKeepsInv(Initial(slots), steps, slots);
  }

  /** Taking the deferred request up never ends the session: its id cannot be pending, so the request is forwarded,
      ahead of a fresh one that is staged. */
  lemma DeferredIsAdmitted(s: State, slots: nat)
    requires Inv(s, slots) && Enabled(s, AdmitDeferred)
    ensures var t := Next(s, AdmitDeferred);
      && !t.ended && t.port.deferred.None? && t.port.staged == s.port.staged
      && t.log.forwarded == s.log.forwarded + [s.port.deferred.value.serial]
      && t.port.free == s.port.free - 1 >= 0
  {
    assert IdsApart(s) && Permits(s, slots);
  }

  /** The response to request `n`, sent under `id`, is bound to be suppressed or already was. */
  ghost predicate Silenced(s: State, id: Id, n: nat) {
    || (id in s.port.pending && s.port.pending[id].serial == n && s.port.pending[id].cancelled
        && (id in s.sending ==> s.sending[id]))
    || Settled(n, false) in s.log.settled
  }

  /** A request cancelled before its response starts keeps its slot until `send`, which writes nothing: however the
      session goes on, the request is pending or was settled silently. */
  lemma {:induction false} CancelledStaysSilent(s: State, steps: seq<Step>, slots: nat, id: Id, n: nat)
    requires Inv(s, slots) && Legal(s, steps) && Silenced(s, id, n)
    ensures Silenced(Run(s, steps), id, n) && Settled(n, true) !in Run(s, steps).log.settled
    decreases |steps|
  {
    if steps == [] {
      SilenceIsFinal(s, slots, id, n);
    } else {
      StepKeepsInv(s, steps[0], slots);
      StepKinds(s, steps[0]);
      StepKeepsSilence(s, steps[0], id, n);
      CancelledStaysSilent(Next(s, steps[0]), steps[1..], slots, id, n);
    }
  }

  lemma SilenceIsFinal(s: State, slots: nat, id: Id, n: nat)
    requires Inv(s, slots) && Silenced(s, id, n)
    ensures Settled(n, true) !in s.log.settled
  {
    if Settled(n, false) in s.log.settled {
      var i :| 0 <= i < |s.log.settled| && s.log.settled[i] == Settled(n, false);
      assert forall j | 0 <= j < |s.log.settled| && s.log.settled[j].serial == n :: j == i;
    }
  }

  lemma StepKeepsSilence(s: State, step: Step, id: Id, n: nat)
    requires Enabled(s, step) && Silenced(s, id, n)
    ensures Silenced(Next(s, step), id, n)
  {
    StepKinds(s, step);
    var t := Next(s, step);
    if step.SendDone? && Settled(n, false) !in s.log.settled && step.id == id {
      assert t.log.settled[|s.log.settled|] == Settled(n, false);
    }
  }

  // ---- what every frame gets ---------------------------------------------------------------------

  /** The request is allowed at this point of the session. */
  predicate Allowed(p: Port, kind: Kind) { p.initializing ==> kind != Call }

  /** Nobody else is waiting for a response under this id. */
  predicate Unused(p: Port, id: Id) {
    id !in p.pending && (p.deferred.Some? ==> p.deferred.value.id != id)
  }

  /** When a staged request ends the session: exactly for a call before initialization or an id in use. An initialize
      request ends initialization even then. */
  lemma RequestsEndExactly(s: State, id: Id, kind: Kind, n: nat)
    requires Enabled(s, Handle) && s.port.staged == Some(Staged(Request(id, kind), n))
    ensures var t := Next(s, Handle);
      && (t.ended <==> !Allowed(s.port, kind) || !Unused(s.port, id))
      && t.port.initializing == (s.port.initializing && kind != Initialize)
      && (t.ended ==> t.log == s.log && t.port == s.port.(initializing := t.port.initializing))
  {
  }

  /** What a staged request gets, for every state in which it is in order: it is forwarded exactly if none is deferred
      and a slot is free, deferred exactly if none is and no slot is, and refused exactly if one is; each with its slot,
      its place or its answer, and nothing else changes. */
  lemma RequestsExactly(s: State, id: Id, kind: Kind, n: nat)
    requires Enabled(s, Handle) && s.port.staged == Some(Staged(Request(id, kind), n))
    requires Allowed(s.port, kind) && Unused(s.port, id)
    ensures var p, t := s.port, Next(s, Handle);
      && !t.ended && t.port.staged.None?
      && (t.log.forwarded == s.log.forwarded + [n] <==> p.deferred.None? && p.free > 0)
      && (t.port.deferred == Some(Numbered(id, n)) <==> p.deferred.None? && p.free <= 0)
      && (t.log.overloaded == s.log.overloaded + [n] <==> p.deferred.Some?)
      && (p.deferred.None? && p.free > 0 ==>
            && t.log == s.log.(forwarded := s.log.forwarded + [n])
            && t.port == p.(staged := None, control := p.control + 1, initializing := t.port.initializing,
                            free := p.free - 1, pending := p.pending[id := Pending(n, false)]))
      && (p.deferred.None? && p.free <= 0 ==>
            && t.log == s.log
            && t.port == p.(staged := None, control := p.control + 1, initializing := t.port.initializing,
                            deferred := Some(Numbered(id, n))))
      && (p.deferred.Some? ==>
            && t.log == s.log.(overloaded := s.log.overloaded + [n])
            && t.port == p.(staged := None, initializing := t.port.initializing, rejected := Some(Numbered(id, n))))
  {
    assert |s.log.forwarded + [n]| == |s.log.forwarded| + 1;
    assert |s.log.overloaded + [n]| == |s.log.overloaded| + 1;
  }

  /** What a cancellation does: a pending request is marked and keeps its slot, a deferred one is withdrawn before any
      handler saw it, and any other is handed on as a notification. */
  lemma CancellationsExactly(s: State, target: Option<Id>, n: nat)
    requires Enabled(s, Handle) && s.port.staged == Some(Staged(Cancelled(target), n))
    ensures var p, t := s.port, Next(s, Handle);
      var ofPending := target.Some? && target.value in p.pending;
      var ofDeferred := target.Some? && !ofPending && p.deferred.Some? && p.deferred.value.id == target.value;
      && !t.ended && t.port.staged.None? && t.port.initializing == p.initializing
      && t.port.free == p.free && t.port.pending.Keys == p.pending.Keys
      && (forall id | id in p.pending ::
            t.port.pending[id] == Pending(p.pending[id].serial, p.pending[id].cancelled || target == Some(id)))
      && t.port.deferred == (if ofDeferred then None else p.deferred)
      && t.log == (if ofDeferred then s.log.(withdrawn := s.log.withdrawn + [p.deferred.value.serial]) else s.log)
      && t.port.control == (if ofPending || ofDeferred then p.control + 1 else p.control)
      && t.handlers == (if ofPending || ofDeferred then s.handlers else s.handlers + 1)
  {
  }

  /** Other notifications are handed on with the control permit, and anything else without it. */
  lemma OtherFramesExactly(s: State, item: Item, n: nat)
    requires Enabled(s, Handle) && s.port.staged == Some(Staged(item, n)) && (item.Notification? || item.Reply?)
    ensures var t := Next(s, Handle);
      && !t.ended && t.log == s.log
      && t.handlers == (if item.Notification? then s.handlers + 1 else s.handlers)
      && t.port == s.port.(staged := None,
                           control := if item.Reply? then s.port.control + 1 else s.port.control)
  {
  }

  /** A cancellation silences its request exactly if the response has not been started, or was already found cancelled;
      from then on it stays silent in every run. */
  lemma CancellationSilences(s: State, slots: nat, id: Id, n: nat)
    requires Inv(s, slots) && Enabled(s, Handle) && id in s.port.pending
    requires s.port.staged.value.item == Cancelled(Some(id)) && s.port.pending[id].serial == n
    ensures Silenced(Next(s, Handle), id, n) <==> (id in s.sending ==> s.sending[id])
  {
    CancellationsExactly(s, Some(id), s.port.staged.value.serial);
    PendingIsUnsettled(s, id);
  }

  lemma PendingIsUnsettled(s: State, id: Id)
    requires SettledOnce(s) && id in s.port.pending
    ensures forall x | x in s.log.settled :: x.serial != s.port.pending[id].serial
  {
    forall x | x in s.log.settled
      ensures x.serial != s.port.pending[id].serial
    {
      var i :| 0 <= i < |s.log.settled| && s.log.settled[i] == x;
    }
  }

  /** A request that is not cancelled by the time its response starts is answered, and gives its slot back. */
  lemma ResponsesAreWritten(s: State, id: Id)
    requires Enabled(s, SendStarted(id)) && !s.port.pending[id].cancelled
    ensures var started := Next(s, SendStarted(id));
      && Enabled(started, SendDone(id, true))
      && var t := Next(started, SendDone(id, true));
         && t.log.settled == s.log.settled + [Settled(s.port.pending[id].serial, true)]
         && t.port.free == s.port.free + 1 && t.port.pending == s.port.pending - {id}
  {
  }

  // ---- how a session goes on and ends ------------------------------------------------------------

  /** A session ends exactly when an overload response cannot be written, the deferred request is not taken up in time,
      the input ends, a response is too large or late, or a staged request is out of order; and it stays ended. */
  lemma EndsExactly(s: State, slots: nat, step: Step)
    requires Inv(s, slots) && Enabled(s, step)
    ensures Next(s, step).ended <==>
      || s.ended || step.RejectionFailed? || step.DeferredExpired? || step.InputEnded? || step.SendAborted?
      || (step.Handle? && s.port.staged.value.item.Request?
          && !(Allowed(s.port, s.port.staged.value.item.kind) && Unused(s.port, s.port.staged.value.item.id)))
  {
    if step.AdmitDeferred? {
      DeferredIsAdmitted(s, slots);
    }
  }

  /** A new session reads, and its first request ends it exactly if it is a call. */
  lemma FirstRequest(slots: nat, id: Id, kind: Kind)
    ensures var s := Initial(slots);
      && Enabled(s, BeginRead)
      && Enabled(Next(s, BeginRead), Decode(Request(id, kind)))
      && var t := Next(Next(s, BeginRead), Decode(Request(id, kind)));
         && Enabled(t, Handle) && t.port.staged == Some(Staged(Request(id, kind), 0)) && t.log.requests == [id]
         && (Next(t, Handle).ended <==> kind == Call)
  {
  }

  /** `receive` never waits for what cannot happen: an overload response can be finished, a staged frame handled, a
      frame read once the control permit is free and decoded once it is taken, and whoever else holds the permit can
      give it back. */
  lemma ReceiveGoesOn(s: State, slots: nat)
    requires Permits(s, slots) && !s.ended
    ensures s.port.rejected.Some? ==>
              Enabled(s, RejectionSent) && Enabled(s, RejectionFailed) && Receiving(Next(s, RejectionSent))
    ensures s.port.rejected.None? && s.port.staged.Some? ==> Enabled(s, Handle)
    ensures s.port.rejected.None? && s.port.staged.None? ==>
              && Enabled(s, InputEnded)
              && if s.reading then forall item :: Enabled(s, Decode(item))
                 else if s.handlers > 0 then Enabled(s, HandlerReturned)
                 else Enabled(s, BeginRead) && forall item :: Enabled(Next(s, BeginRead), Decode(item))
  {
  }

  /** Nor does what is admitted or deferred: a deferred request can be taken up when a slot is free, and can expire, and
      every pending request can be answered. */
  lemma RequestsGoOn(s: State)
    ensures Receiving(s) && s.port.deferred.Some? ==>
              && Enabled(s, DeferredExpired)
              && (s.port.free > 0 && (s.port.staged.Some? ==> s.port.staged.value.item.Request?) ==>
                    Enabled(s, AdmitDeferred))
    ensures forall id | id in s.port.pending ::
              if id in s.sending then Enabled(s, SendDone(id, true)) && (!s.sending[id] ==> Enabled(s, SendAborted(id)))
              else Enabled(s, SendStarted(id))
  {
  }
}
