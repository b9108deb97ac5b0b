/** The draft journal of src/draft_journal.rs: the durable record that lets an APPEND be dispatched at most once.
    The table is a map from primary key to row; SHA-256 is a parameter, `hash`. */
module Journal {
  import opened Wrappers

  type Digest = nat

  const MAX_I64: nat := 0x7fff_ffff_ffff_ffff
  const MAX_U32: nat := 0xffff_ffff
  const MAX_MAILBOX: nat := 4096
  const ENCODER := "mail-builder/2.0.1"

  datatype Identity = Identity(account: nat, generation: nat, operation: nat)

  datatype Frozen = Frozen(uidValidity: nat, input: Digest, fromConfiguration: Digest, selectedFrom: Option<Digest>,
                           date: int, encoder: string, facts: Digest)

  datatype Operation = Operation(identity: Identity, mailbox: string, content: Digest, reconstruction: Option<Frozen>)

  type u32 = x: int | 0 <= x <= 0xffff_ffff

  datatype MessageId = MessageId(uidValidity: u32, uid: u32)

  datatype State =
    | Prepared
    | InFlight
    | Created(message: Option<MessageId>)
    | Duplicate(original: MessageId)
    | Rejected
    | OutcomeUnknown

  datatype Persisted = Persisted(operation: Operation, state: State)

  datatype Error =
    | Unavailable
    | Full
    | InvalidDatabase
    | InvalidOperation
    | OperationConflict
    | OperationNotPrepared
    | NotDispatchable(state: State)

  // ---- fingerprints ------------------------------------------------------------------------------

  /** What the fingerprint covers: every frozen fact, but not the encoder. */
  datatype Facts = Facts(identity: Identity, mailbox: string, uidValidity: nat, input: Digest,
                         fromConfiguration: Digest, selectedFrom: Option<Digest>, date: int)

  function FactsOf(identity: Identity, mailbox: string, frozen: Frozen): Facts {
    Facts(identity, mailbox, frozen.uidValidity, frozen.input, frozen.fromConfiguration, frozen.selectedFrom,
          frozen.date)
  }

  predicate EncoderValid(frozen: Frozen) {
    && 0 < |frozen.encoder| <= 128
    && forall c | c in frozen.encoder :: 33 <= c as int <= 126
  }

  predicate FingerprintMatches(hash: Facts -> Digest, operation: Operation, frozen: Frozen) {
    hash(FactsOf(operation.identity, operation.mailbox, frozen)) == frozen.facts
  }

  // ---- rows --------------------------------------------------------------------------------------

  /** The reconstruction column holds JSON text; `Malformed` stands for text that does not parse. */
  datatype Json = Json(frozen: Frozen) | Malformed

  // SQLite integers
  type i64 = x: int | -0x8000_0000_0000_0000 <= x <= 0x7fff_ffff_ffff_ffff

  datatype DatabaseRow = DatabaseRow(operation: nat, account: nat, generation: i64, mailbox: string, content: Digest,
                                     reconstruction: Option<Json>, state: string,
                                     uidValidity: Option<i64>, uid: Option<i64>)

  function StateName(state: State): string {
    match state
    case Prepared => "prepared"
    case InFlight => "in_flight"
    case Created(_) => "created"
    case Duplicate(_) => "duplicate"
    case Rejected => "rejected"
    case OutcomeUnknown => "outcome_unknown"
  }

  function MessageOf(state: State): Option<MessageId> {
    match state
    case Created(message) => message
    case Duplicate(original) => Some(original)
    case _ => None
  }

  function WithState(row: DatabaseRow, state: State): DatabaseRow {
    row.(state := StateName(state),
         uidValidity := if MessageOf(state).Some? then Some(MessageOf(state).value.uidValidity) else None,
         uid := if MessageOf(state).Some? then Some(MessageOf(state).value.uid) else None)
  }

  function EncodeRow(p: Persisted): DatabaseRow
    requires Storable(p)
  {
    var o := p.operation;
    WithState(DatabaseRow(o.identity.operation, o.identity.account, o.identity.generation, o.mailbox, o.content,
                          if o.reconstruction.Some? then Some(Json(o.reconstruction.value)) else None, "", None, None),
              p.state)
  }

  function DecodeMessage(row: DatabaseRow): Result<Option<MessageId>, Error> {
    match (row.uidValidity, row.uid)
    case (None, None) => Ok(None)
    case (Some(validity), Some(uid)) =>
      if 0 < validity <= MAX_U32 && 0 < uid <= MAX_U32 then Ok(Some(MessageId(validity, uid))) else Err(InvalidDatabase)
    case _ => Err(InvalidDatabase)
  }

  function DecodeState(name: string, message: Option<MessageId>): Result<State, Error> {
    if name == "prepared" && message.None? then Ok(Prepared)
    else if name == "in_flight" && message.None? then Ok(InFlight)
    else if name == "created" then Ok(Created(message))
    else if name == "duplicate" then if message.Some? then Ok(Duplicate(message.value)) else Err(InvalidDatabase)
    else if name == "rejected" && message.None? then Ok(Rejected)
    else if name == "outcome_unknown" && message.None? then Ok(OutcomeUnknown)
    else Err(InvalidDatabase)
  }

  function DecodeRow(row: DatabaseRow): Result<Persisted, Error> {
    if row.generation < 0 then Err(InvalidDatabase)
    else match DecodeMessage(row)
      case Err(e) => Err(e)
      case Ok(message) =>
        if row.mailbox == "" || |row.mailbox| > MAX_MAILBOX then Err(InvalidDatabase)
        else match DecodeState(row.state, message)
          case Err(e) => Err(e)
          case Ok(state) =>
            if row.reconstruction == Some(Malformed) then Err(InvalidDatabase)
            else Ok(Persisted(
              Operation(Identity(row.account, row.generation, row.operation), row.mailbox, row.content,
                        if row.reconstruction.Some? then Some(row.reconstruction.value.frozen) else None), state))
  }

  predicate MessageValid(m: Option<MessageId>) {
    m.Some? ==> 0 < m.value.uidValidity && 0 < m.value.uid
  }

  predicate ValidMailbox(mailbox: string) { 0 < |mailbox| <= MAX_MAILBOX }

  predicate Storable(p: Persisted) {
    && p.operation.identity.generation <= MAX_I64
    && ValidMailbox(p.operation.mailbox)
    && MessageValid(MessageOf(p.state))
  }

  lemma StateByName(state: State)
    ensures DecodeState(StateName(state), MessageOf(state)) == Ok(state)
  {
    assert forall a: State, b: State | StateName(a) == StateName(b) ::
      StateName(a)[0] == StateName(b)[0] && |StateName(a)| == |StateName(b)|;
    match state {
      case Prepared =>
      case InFlight => assert StateName(state)[0] == 'i';
      case Created(_) => assert StateName(state)[0] == 'c';
      case Duplicate(_) => assert StateName(state)[0] == 'd';
      case Rejected => assert StateName(state)[0] == 'r';
      case OutcomeUnknown => assert StateName(state)[0] == 'o';
    }
  }

  lemma DecodesEncoded(p: Persisted)
    requires Storable(p)
    ensures DecodeRow(EncodeRow(p)) == Ok(p)
  {
    StateByName(p.state);
    assert DecodeMessage(EncodeRow(p)) == Ok(MessageOf(p.state));
  }

  lemma EncodesDecoded(row: DatabaseRow)
    requires DecodeRow(row).Ok?
    ensures Storable(DecodeRow(row).value) && row == EncodeRow(DecodeRow(row).value)
  {
    var p := DecodeRow(row).value;
    var q := EncodeRow(p);
    assert q.state == row.state && MessageOf(p.state) == DecodeMessage(row).value;
    assert q.uidValidity == row.uidValidity && q.uid == row.uid;
    if row.reconstruction.Some? {
      assert row.reconstruction.value.Json?;
    }
  }

  /** Rows decode to what was stored, and only rows some stored operation writes decode at all. */
  lemma DecodesExactly(row: DatabaseRow, p: Persisted)
    ensures DecodeRow(row) == Ok(p) <==> Storable(p) && row == EncodeRow(p)
  {
    if Storable(p) && row == EncodeRow(p) {
      DecodesEncoded(p);
    }
    if DecodeRow(row) == Ok(p) {
      EncodesDecoded(row);
    }
  }

  /** What stands in each column; the message columns are set exactly by the states that name a message. */
  lemma ColumnsOf(p: Persisted)
    requires Storable(p)
    ensures var row, o := EncodeRow(p), p.operation;
      && row.operation == o.identity.operation && row.account == o.identity.account
      && row.generation == o.identity.generation && row.mailbox == o.mailbox && row.content == o.content
      && row.reconstruction == (if o.reconstruction.Some? then Some(Json(o.reconstruction.value)) else None)
      && (p.state == Prepared <==> row.state == "prepared") && (p.state == InFlight <==> row.state == "in_flight")
      && (p.state.Created? <==> row.state == "created") && (p.state.Duplicate? <==> row.state == "duplicate")
      && (p.state == Rejected <==> row.state == "rejected")
      && (p.state == OutcomeUnknown <==> row.state == "outcome_unknown")
      && match p.state
         case Created(Some(message)) =>
           row.uidValidity == Some(message.uidValidity) && row.uid == Some(message.uid)
         case Duplicate(message) => row.uidValidity == Some(message.uidValidity) && row.uid == Some(message.uid)
         case _ => row.uidValidity == None && row.uid == None
  {
    StateByName(p.state);
    DecodesEncoded(p);
  }

  // ---- operations --------------------------------------------------------------------------------

  type Rows = map<Identity, DatabaseRow>

  /** `read_by_identity`, after `sqlite_generation`. */
  function Read(rows: Rows, identity: Identity): (r: Result<Option<Persisted>, Error>)
    ensures r.Ok? ==> identity.generation <= MAX_I64
    ensures r.Ok? && r.value.Some? ==> identity in rows && DecodeRow(rows[identity]) == Ok(r.value.value)
  {
    if identity.generation > MAX_I64 then Err(InvalidDatabase)
    else if identity !in rows then Ok(None)
    else match DecodeRow(rows[identity])
      case Err(e) => Err(e)
      case Ok(p) => Ok(Some(p))
  }

  function Prepare(rows: Rows, operation: Operation, maximum: nat): (Rows, Result<Persisted, Error>) {
    if !ValidMailbox(operation.mailbox) then (rows, Err(InvalidOperation))
    else match Read(rows, operation.identity)
      case Err(e) => (rows, Err(e))
      case Ok(Some(prior)) => (rows, if prior.operation != operation then Err(OperationConflict) else Ok(prior))
      case Ok(None) =>
        if |rows| >= maximum then (rows, Err(Full))
        else (rows[operation.identity := EncodeRow(Persisted(operation, Prepared))], Ok(Persisted(operation, Prepared)))
  }

  predicate Reencodable(hash: Facts -> Digest, expected: Operation) {
    && expected.reconstruction.Some?
    && var frozen := expected.reconstruction.value;
    && EncoderValid(frozen) && frozen.encoder != ENCODER
    && frozen.uidValidity != 0 && frozen.selectedFrom.Some?
    && FingerprintMatches(hash, expected, frozen)
  }

  function Reencoded(operation: Operation, content: Digest): Operation
    requires operation.reconstruction.Some?
  {
    operation.(content := content, reconstruction := Some(operation.reconstruction.value.(encoder := ENCODER)))
  }

  function Reencode(hash: Facts -> Digest, rows: Rows, expected: Operation, content: Digest)
    : (Rows, Result<Persisted, Error>)
  {
    if !Reencodable(hash, expected) then (rows, Err(InvalidOperation))
    else match Read(rows, expected.identity)
      case Err(e) => (rows, Err(e))
      case Ok(None) => (rows, Err(OperationNotPrepared))
      case Ok(Some(prior)) =>
        if prior.operation != expected then (rows, Err(OperationConflict))
        else if prior.state != Prepared then (rows, Err(NotDispatchable(prior.state)))
        else
          var operation := Reencoded(prior.operation, content);
          (rows[expected.identity := rows[expected.identity].(
             content := content, reconstruction := Some(Json(operation.reconstruction.value)))],
           Ok(Persisted(operation, Prepared)))
  }

  /** The read half of `begin_dispatch`. */
  function CheckDispatch(rows: Rows, operation: Operation): Result<Persisted, Error> {
    if !ValidMailbox(operation.mailbox) then Err(InvalidOperation)
    else match Read(rows, operation.identity)
      case Err(e) => Err(e)
      case Ok(None) => Err(OperationNotPrepared)
      case Ok(Some(prior)) =>
        if prior.operation != operation then Err(OperationConflict)
        else if prior.state != Prepared then Err(NotDispatchable(prior.state))
        else Ok(prior)
  }

  /** An UPDATE that names the state it expects. */
  predicate Matches(rows: Rows, identity: Identity, expected: State) {
    identity in rows && rows[identity].state == StateName(expected)
  }

  function MarkInFlight(rows: Rows, identity: Identity): Rows
    requires identity in rows
  {
    rows[identity := rows[identity].(state := StateName(InFlight))]
  }

  function Expected(outcome: State): State {
    if outcome.Duplicate? then OutcomeUnknown else InFlight
  }

  /** The read half of `record_outcome`. */
  function CheckOutcome(rows: Rows, identity: Identity, outcome: State): Result<Persisted, Error> {
    if outcome.Prepared? || outcome.InFlight? || !MessageValid(MessageOf(outcome)) then Err(InvalidOperation)
    else match Read(rows, identity)
      case Err(e) => Err(e)
      case Ok(None) => Err(OperationNotPrepared)
      case Ok(Some(prior)) => if prior.state != Expected(outcome) then Err(NotDispatchable(prior.state)) else Ok(prior)
  }

  function MarkOutcome(rows: Rows, identity: Identity, outcome: State): Rows
    requires identity in rows
  {
    rows[identity := WithState(rows[identity], outcome)]
  }

  /** One connection. Each method is one transaction; the guarded UPDATE is decided on the row it finds. */
  class DraftJournal {
    var rows: Rows

    constructor ()
      ensures rows == map[]
    {
      rows := map[];
    }

    method PrepareWithLimit(operation: Operation, maximum: nat) returns (result: Result<Persisted, Error>)
      modifies this
      ensures (rows, result) == Prepare(old(rows), operation, maximum)
    {
      if operation.mailbox == "" || |operation.mailbox| > MAX_MAILBOX {
        return Err(InvalidOperation);
      }
      var prior := Read(rows, operation.identity);
      if prior.Err? {
        return Err(prior.error);
      }
      if prior.value.Some? {
        if prior.value.value.operation != operation {
          return Err(OperationConflict);
        }
        return Ok(prior.value.value);
      }
      if |rows| >= maximum {
        return Err(Full);
      }
      rows := rows[operation.identity := EncodeRow(Persisted(operation, Prepared))];
      return Ok(Persisted(operation, Prepared));
    }

    method ReencodePrepared(hash: Facts -> Digest, expected: Operation, content: Digest)
      returns (result: Result<Persisted, Error>)
      modifies this
      ensures (rows, result) == Reencode(hash, old(rows), expected, content)
    {
      if !Reencodable(hash, expected) {
        return Err(InvalidOperation);
      }
      var prior := Read(rows, expected.identity);
      if prior.Err? {
        return Err(prior.error);
      }
      if prior.value.None? {
        return Err(OperationNotPrepared);
      }
      if prior.value.value.operation != expected {
        return Err(OperationConflict);
      }
      if prior.value.value.state != Prepared {
        return Err(NotDispatchable(prior.value.value.state));
      }
      var operation := prior.value.value.operation;
      var frozen := operation.reconstruction.value.(encoder := ENCODER);
      operation := operation.(content := content, reconstruction := Some(frozen));
      rows := rows[expected.identity :=
        rows[expected.identity].(content := content, reconstruction := Some(Json(frozen)))];
      return Ok(Persisted(operation, Prepared));
    }

    method BeginDispatch(operation: Operation) returns (result: Result<Persisted, Error>)
      modifies this
      ensures result.Ok? <==> CheckDispatch(old(rows), operation).Ok?
      ensures result.Ok? ==> operation.identity in old(rows) && rows == MarkInFlight(old(rows), operation.identity)
      ensures result.Ok? ==> result == Ok(Persisted(operation, InFlight)) == DecodeRow(rows[operation.identity])
      ensures result.Err? ==> rows == old(rows) && result == CheckDispatch(old(rows), operation)
    {
      var checked := CheckDispatch(rows, operation);
      if checked.Err? {
        return checked;
      }
      EncodesDecoded(rows[operation.identity]);
      if !Matches(rows, operation.identity, Prepared) {
        return Err(NotDispatchable(InFlight));
      }
      rows := rows[operation.identity := rows[operation.identity].(state := "in_flight")];
      DecodesEncoded(Persisted(operation, InFlight));
      return Ok(Persisted(checked.value.operation, InFlight));
    }

    method RecordOutcome(identity: Identity, outcome: State) returns (result: Result<Persisted, Error>)
      modifies this
      ensures result.Ok? <==> CheckOutcome(old(rows), identity, outcome).Ok?
      ensures result.Ok? ==> identity in old(rows) && rows == MarkOutcome(old(rows), identity, outcome)
      ensures result.Ok? ==> result.value == CheckOutcome(old(rows), identity, outcome).value.(state := outcome)
      ensures result.Ok? ==> DecodeRow(rows[identity]) == result
      ensures result.Err? ==> rows == old(rows) && result == CheckOutcome(old(rows), identity, outcome)
    {
      var checked := CheckOutcome(rows, identity, outcome);
      if checked.Err? {
        return checked;
      }
      EncodesDecoded(rows[identity]);
      if !Matches(rows, identity, Expected(outcome)) {
        return Err(NotDispatchable(InFlight));
      }
      rows := rows[identity := WithState(rows[identity], outcome)];
      DecodesEncoded(checked.value.(state := outcome));
      return Ok(Persisted(checked.value.operation, outcome));
    }
  }

  // ---- any number of connections, with crashes ---------------------------------------------------

  /** What a connection has read and not yet written. */
  datatype Pending = Dispatching(identity: Identity) | Recording(identity: Identity, outcome: State)

  datatype Event = Dispatched(identity: Identity) | Replaced(identity: Identity)

  /** The durable rows, what live connections are about to write, and the dispatches and re-encodings that
      succeeded so far. */
  datatype System = System(rows: Rows, pending: map<nat, Pending>, log: seq<Event>)

  datatype Step =
    | PrepareStep(operation: Operation, maximum: nat)
    | ReencodeStep(expected: Operation, content: Digest)
    | DispatchRead(connection: nat, operation: Operation)
    | OutcomeRead(connection: nat, identity: Identity, outcome: State)
    | Write(connection: nat)
    | Crash(connection: nat)

  function Next(hash: Facts -> Digest, s: System, step: Step): System {
    match step
    case PrepareStep(operation, maximum) => s.(rows := Prepare(s.rows, operation, maximum).0)
    case ReencodeStep(expected, content) =>
      var (rows, result) := Reencode(hash, s.rows, expected, content);
      s.(rows := rows, log := if result.Ok? then s.log + [Replaced(expected.identity)] else s.log)
    case DispatchRead(c, operation) =>
      if CheckDispatch(s.rows, operation).Ok? then s.(pending := s.pending[c := Dispatching(operation.identity)])
      else s.(pending := s.pending - {c})
    case OutcomeRead(c, identity, outcome) =>
      if CheckOutcome(s.rows, identity, outcome).Ok? then s.(pending := s.pending[c := Recording(identity, outcome)])
      else s.(pending := s.pending - {c})
    case Write(c) =>
      if c !in s.pending then s
      else
        var t := s.(pending := s.pending - {c});
        (match s.pending[c]
         case Dispatching(identity) =>
           if Matches(s.rows, identity, Prepared) then
             t.(rows := MarkInFlight(s.rows, identity), log := s.log + [Dispatched(identity)])
           else t
         case Recording(identity, outcome) =>
           if Matches(s.rows, identity, Expected(outcome)) then t.(rows := MarkOutcome(s.rows, identity, outcome))
           else t)
    case Crash(c) => s.(pending := s.pending - {c})
  }

  function Run(hash: Facts -> Digest, s: System, steps: seq<Step>): System
    decreases |steps|
  {
    if steps == [] then s else Run(hash, Next(hash, s, steps[0]), steps[1..])
  }

  /** The only moves a stored state makes. */
  predicate StateMoves(before: string, after: string) {
    || after == before
    || (before == "prepared" && after == "in_flight")
    || (before == "in_flight" && after in {"created", "rejected", "outcome_unknown"})
    || (before == "outcome_unknown" && after == "duplicate")
  }

  /** The moves above, taken any number of times. */
  predicate StateReaches(before: string, after: string) {
    || after == before
    || (before == "prepared" && after in {"in_flight", "created", "rejected", "outcome_unknown", "duplicate"})
    || (before == "in_flight" && after in {"created", "rejected", "outcome_unknown", "duplicate"})
    || (before == "outcome_unknown" && after == "duplicate")
  }

  function EncoderOf(row: DatabaseRow): Option<string> {
    if row.reconstruction.Some? && row.reconstruction.value.Json? then Some(row.reconstruction.value.frozen.encoder)
    else None
  }

  /** Everything but the content hash and the encoder. */
  function FrozenPart(row: DatabaseRow): DatabaseRow {
    row.(content := 0, state := "", uidValidity := None, uid := None,
         reconstruction := if EncoderOf(row).Some? then Some(Json(row.reconstruction.value.frozen.(encoder := "")))
                           else row.reconstruction)
  }

  predicate SameContent(before: DatabaseRow, after: DatabaseRow) {
    after.content == before.content && after.reconstruction == before.reconstruction
  }

  /** A row at one time and at a later one. */
  predicate Later(before: DatabaseRow, after: DatabaseRow) {
    && FrozenPart(after) == FrozenPart(before)
    && StateReaches(before.state, after.state)
    && (before.state != "prepared" || EncoderOf(before) == Some(ENCODER) ==> SameContent(before, after))
    && (!SameContent(before, after) ==> EncoderOf(after) == Some(ENCODER))
  }

  predicate IsOutcome(state: State) {
    !state.Prepared? && !state.InFlight? && MessageValid(MessageOf(state))
  }

  /** The row of an event shows that it happened. */
  predicate Recorded(rows: Rows, event: Event) {
    event.identity in rows
    && if event.Dispatched? then rows[event.identity].state != "prepared"
       else EncoderOf(rows[event.identity]) == Some(ENCODER)
  }

  /** Only outcomes are ever about to be recorded. */
  ghost predicate Outcomes(pending: map<nat, Pending>) {
    forall c | c in pending && pending[c].Recording? :: IsOutcome(pending[c].outcome)
  }

  ghost predicate Inv(s: System) {
    && Outcomes(s.pending)
    && (forall i, j | 0 <= i < j < |s.log| :: s.log[i] != s.log[j])
    && (forall event | event in s.log :: Recorded(s.rows, event))
  }

  lemma LaterIsTransitive(a: DatabaseRow, b: DatabaseRow, c: DatabaseRow)
    requires Later(a, b) && Later(b, c)
    ensures Later(a, c)
  {
  }

  lemma ReencodeMovesRow(hash: Facts -> Digest, rows: Rows, expected: Operation, content: Digest)
    requires Reencode(hash, rows, expected, content).1.Ok?
    ensures expected.identity in rows
    ensures var before, after := rows[expected.identity], Reencode(hash, rows, expected, content).0[expected.identity];
      && EncoderOf(before) == Some(expected.reconstruction.value.encoder)
      && EncoderOf(after) == Some(ENCODER)
      && FrozenPart(after) == FrozenPart(before)
      && before.state == after.state == "prepared"
  {
    EncodesDecoded(rows[expected.identity]);
  }

  lemma PrepareMovesRow(hash: Facts -> Digest, s: System, step: Step, id: Identity)
    requires step.PrepareStep? && id in s.rows
    ensures id in Next(hash, s, step).rows && Next(hash, s, step).rows[id] == s.rows[id]
  {
    PreparesByGuard(s.rows, step.operation, step.maximum);
  }

  lemma WriteMovesRow(hash: Facts -> Digest, s: System, step: Step, id: Identity)
    requires step.Write? && id in s.rows
    requires step.connection in s.pending && s.pending[step.connection].Recording? ==>
               IsOutcome(s.pending[step.connection].outcome)
    ensures id in Next(hash, s, step).rows
    ensures StateMoves(s.rows[id].state, Next(hash, s, step).rows[id].state)
    ensures Later(s.rows[id], Next(hash, s, step).rows[id])
  {
    if step.connection in s.pending && s.pending[step.connection].Recording? {
      OutcomeMovesState(s.pending[step.connection].outcome);
    }
  }

  /** One step moves a row along the state diagram at most, and freezes what it must. */
  lemma StepMovesRow(hash: Facts -> Digest, s: System, step: Step, id: Identity)
    requires Inv(s) && id in s.rows
    ensures id in Next(hash, s, step).rows
    ensures StateMoves(s.rows[id].state, Next(hash, s, step).rows[id].state)
    ensures Later(s.rows[id], Next(hash, s, step).rows[id])
  {
    match step
    case PrepareStep(_, _) => PrepareMovesRow(hash, s, step, id);
    case ReencodeStep(expected, content) =>
      if Reencode(hash, s.rows, expected, content).1.Ok? {
        ReencodeMovesRow(hash, s.rows, expected, content);
      }
    case Write(_) => WriteMovesRow(hash, s, step, id);
    case _ =>
  }

  lemma OutcomeMovesState(outcome: State)
    requires IsOutcome(outcome)
    ensures StateMoves(StateName(Expected(outcome)), StateName(outcome))
  {
  }

  /** Whatever succeeds now has not succeeded before, since its row says so. */
  lemma LogGrowsByNews(hash: Facts -> Digest, s: System, step: Step)
    requires Inv(s)
    ensures var t := Next(hash, s, step);
      t.log == s.log || exists event :: event !in s.log && t.log == s.log + [event] && Recorded(t.rows, event)
  {
    var t := Next(hash, s, step);
    if step.ReencodeStep? && Reencode(hash, s.rows, step.expected, step.content).1.Ok? {
      ReencodeMovesRow(hash, s.rows, step.expected, step.content);
      var event := Replaced(step.expected.identity);
      assert event !in s.log && t.log == s.log + [event];
    } else if t.log != s.log {
      var event := Dispatched(s.pending[step.connection].identity);
      assert event !in s.log && t.log == s.log + [event];
    }
  }

  /** What a row once showed, a later row shows. */
  lemma RecordedStays(before: Rows, after: Rows, event: Event)
    requires Recorded(before, event) && event.identity in after
    requires Later(before[event.identity], after[event.identity])
    ensures Recorded(after, event)
  {
  }

  lemma StepKeepsOutcomes(hash: Facts -> Digest, s: System, step: Step)
    requires Outcomes(s.pending)
    ensures Outcomes(Next(hash, s, step).pending)
  {
  }

  lemma StepKeepsInv(hash: Facts -> Digest, s: System, step: Step)
    requires Inv(s)
    ensures Inv(Next(hash, s, step))
  {
    var t := Next(hash, s, step);
    LogGrowsByNews(hash, s, step);
    StepKeepsOutcomes(hash, s, step);
    forall event | event in s.log
      ensures Recorded(t.rows, event)
    {
      StepMovesRow(hash, s, step, event.identity);
      RecordedStays(s.rows, t.rows, event);
    }
  }

  lemma {:induction false} RunKeepsInv(hash: Facts -> Digest, s: System, steps: seq<Step>)
    requires Inv(s)
    ensures Inv(Run(hash, s, steps))
    decreases |steps|
  {
    if steps != [] {
      StepKeepsInv(hash, s, steps[0]);
      RunKeepsInv(hash, Next(hash, s, steps[0]), steps[1..]);
    }
  }

  /** Whatever rows a journal starts with, and however connections interleave, crash and reopen: an identity is
      dispatched at most once and re-encoded at most once. */
  lemma AtMostOnce(hash: Facts -> Digest, rows: Rows, steps: seq<Step>)
    ensures var log := Run(hash, System(rows, map[], []), steps).log;
      forall i, j | 0 <= i < j < |log| :: log[i] != log[j]
  {
    RunKeepsInv(hash, System(rows, map[], []), steps);
  }

  lemma RestatedRow(operation: Operation, before: State, after: State)
    requires Storable(Persisted(operation, before)) && Storable(Persisted(operation, after))
    ensures WithState(EncodeRow(Persisted(operation, before)), after) == EncodeRow(Persisted(operation, after))
    ensures DecodeRow(EncodeRow(Persisted(operation, after))) == Ok(Persisted(operation, after))
  {
    DecodesEncoded(Persisted(operation, after));
  }

  /** A row that holds the operation in this state, as it would be written. */
  ghost predicate Stores(rows: Rows, operation: Operation, state: State) {
    && Storable(Persisted(operation, state)) && operation.identity in rows
    && rows[operation.identity] == EncodeRow(Persisted(operation, state))
  }

  lemma PrepareStores(rows: Rows, operation: Operation, maximum: nat)
    requires Storable(Persisted(operation, Prepared)) && operation.identity !in rows && |rows| < maximum
    ensures Stores(Prepare(rows, operation, maximum).0, operation, Prepared)
  {
  }

  lemma DispatchStores(hash: Facts -> Digest, s: System, connection: nat, operation: Operation)
    requires Stores(s.rows, operation, Prepared)
    ensures var t := Next(hash, Next(hash, s, DispatchRead(connection, operation)), Write(connection));
      Stores(t.rows, operation, InFlight) && t.log == s.log + [Dispatched(operation.identity)]
  {
    RestatedRow(operation, Prepared, Prepared);
    RestatedRow(operation, Prepared, InFlight);
  }

  lemma OutcomeStores(hash: Facts -> Digest, s: System, connection: nat, operation: Operation, outcome: State)
    requires IsOutcome(outcome) && Stores(s.rows, operation, Expected(outcome))
    ensures var t := Next(hash, Next(hash, s, OutcomeRead(connection, operation.identity, outcome)), Write(connection));
      Stores(t.rows, operation, outcome) && t.log == s.log
  {
    RestatedRow(operation, Expected(outcome), Expected(outcome));
    RestatedRow(operation, Expected(outcome), outcome);
  }

  /** The guards turn nothing down that is in order: an operation that is new to a journal with room can be prepared,
      dispatched and given any first outcome, and its row then reads as exactly that. */
  lemma LifecycleCompletes(hash: Facts -> Digest, s: System, connection: nat, operation: Operation, maximum: nat,
                           outcome: State)
    requires Storable(Persisted(operation, Prepared)) && operation.identity !in s.rows && |s.rows| < maximum
    requires IsOutcome(outcome) && !outcome.Duplicate?
    ensures var prepared := Next(hash, s, PrepareStep(operation, maximum));
      var sent := Next(hash, Next(hash, prepared, DispatchRead(connection, operation)), Write(connection));
      var done := Next(hash, Next(hash, sent, OutcomeRead(connection, operation.identity, outcome)), Write(connection));
      && done.log == s.log + [Dispatched(operation.identity)]
      && Read(done.rows, operation.identity) == Ok(Some(Persisted(operation, outcome)))
  {
    PrepareStores(s.rows, operation, maximum);
    var prepared := Next(hash, s, PrepareStep(operation, maximum));
    DispatchStores(hash, prepared, connection, operation);
    var sent := Next(hash, Next(hash, prepared, DispatchRead(connection, operation)), Write(connection));
    OutcomeStores(hash, sent, connection, operation, outcome);
    DecodesEncoded(Persisted(operation, outcome));
  }

  /** An identity whose row has left `prepared`, an uncertain outcome included, is never dispatched again. */
  lemma {:induction false} NeverDispatchedAgain(hash: Facts -> Digest, s: System, steps: seq<Step>, id: Identity)
    requires Inv(s) && id in s.rows && s.rows[id].state != "prepared" && Dispatched(id) !in s.log
    ensures Dispatched(id) !in Run(hash, s, steps).log
    decreases |steps|
  {
    if steps != [] {
      StepMovesRow(hash, s, steps[0], id);
      StepKeepsInv(hash, s, steps[0]);
      NeverDispatchedAgain(hash, Next(hash, s, steps[0]), steps[1..], id);
    }
  }

  /** Over any run a stored row keeps its identity, mailbox and frozen facts; its content and encoder change at
      most once, to the current encoder and only while prepared; its state only moves forward. */
  lemma {:induction false} RunMovesRow(hash: Facts -> Digest, s: System, steps: seq<Step>, id: Identity)
    requires Inv(s) && id in s.rows
    ensures id in Run(hash, s, steps).rows && Later(s.rows[id], Run(hash, s, steps).rows[id])
    decreases |steps|
  {
    if steps != [] {
      var t := Next(hash, s, steps[0]);
      StepMovesRow(hash, s, steps[0], id);
      StepKeepsInv(hash, s, steps[0]);
      RunMovesRow(hash, t, steps[1..], id);
      LaterIsTransitive(s.rows[id], t.rows[id], Run(hash, s, steps).rows[id]);
    }
  }

  // ---- verification of retained history ----------------------------------------------------------

  predicate RowAccepted(hash: Facts -> Digest, row: DatabaseRow) {
    match DecodeRow(row)
    case Err(_) => false
    case Ok(p) =>
      var o := p.operation;
      && (o.reconstruction.Some? ==>
            EncoderValid(o.reconstruction.value) && FingerprintMatches(hash, o, o.reconstruction.value))
      && (p.state.Prepared? ==>
            && o.reconstruction.Some?
            && o.reconstruction.value.uidValidity != 0 && o.reconstruction.value.selectedFrom.Some?)
  }

  /** The first row that is not accepted, or at which time or room is over, and the error for it. */
  ghost predicate Stops(hash: Facts -> Digest, rows: seq<DatabaseRow>, expires: Option<nat>, maximum: nat, n: nat,
                        error: Error)
    requires n <= |rows|
  {
    && (forall i | 0 <= i < n :: RowAccepted(hash, rows[i]))
    && (if expires.Some? && expires.value <= n then error == Unavailable
        else
          && n < |rows|
          && if n >= maximum then error == Unavailable
             else if DecodeRow(rows[n]).Err? then error == InvalidDatabase
             else !RowAccepted(hash, rows[n]) && error == InvalidOperation)
  }

  /** `verify_rows`. The clock passes the deadline, if there is one, after `expires` turns. */
  method VerifyRows(hash: Facts -> Digest, rows: seq<DatabaseRow>, expires: Option<nat>, maximum: nat)
    returns (result: Result<(), Error>)
    ensures result.Ok? <==>
      && |rows| <= maximum && (expires.Some? ==> expires.value > |rows|)
      && forall row | row in rows :: RowAccepted(hash, row)
    ensures result.Err? ==> exists n :: 0 <= n <= |rows| && Stops(hash, rows, expires, maximum, n, result.error)
  {
    var count := 0;
    while true
      invariant 0 <= count <= |rows| && count <= maximum
      invariant expires.Some? ==> expires.value >= count
      invariant forall i | 0 <= i < count :: RowAccepted(hash, rows[i])
      decreases |rows| - count
    {
      if expires.Some? && count >= expires.value {
        assert Stops(hash, rows, expires, maximum, count, Unavailable);
        return Err(Unavailable);
      }
      if count == |rows| {
        break;
      }
      var row := rows[count];
      assert row in rows;
      if count + 1 > maximum {
        assert Stops(hash, rows, expires, maximum, count, Unavailable);
        return Err(Unavailable);
      }
      var decoded := DecodeRow(row);
      if decoded.Err? {
        assert Stops(hash, rows, expires, maximum, count, decoded.error);
        return Err(decoded.error);
      }
      assert Stops(hash, rows, expires, maximum, count, InvalidOperation) <==> !RowAccepted(hash, row);
      var operation := decoded.value.operation;
      if operation.reconstruction.Some? {
        var frozen := operation.reconstruction.value;
        if !EncoderValid(frozen) || hash(FactsOf(operation.identity, operation.mailbox, frozen)) != frozen.facts {
          return Err(InvalidOperation);
        }
      }
      if decoded.value.state == Prepared {
        if operation.reconstruction.None? {
          return Err(InvalidOperation);
        }
        if operation.reconstruction.value.uidValidity == 0 || operation.reconstruction.value.selectedFrom.None? {
          return Err(InvalidOperation);
        }
      }
      count := count + 1;
    }
    assert rows[..count] == rows;
    return Ok(());
  }

  ghost predicate Accepted(hash: Facts -> Digest, rows: Rows) {
    forall id | id in rows :: RowAccepted(hash, rows[id])
  }

  predicate WellFormed(hash: Facts -> Digest, operation: Operation) {
    && operation.reconstruction.Some?
    && var frozen := operation.reconstruction.value;
    && EncoderValid(frozen) && FingerprintMatches(hash, operation, frozen)
    && frozen.uidValidity != 0 && frozen.selectedFrom.Some?
  }

  /** The guard of the branch that inserts. */
  predicate Inserts(rows: Rows, operation: Operation, maximum: nat) {
    && ValidMailbox(operation.mailbox) && operation.identity.generation <= MAX_I64
    && operation.identity !in rows && |rows| < maximum
  }

  lemma PreparesByGuard(rows: Rows, operation: Operation, maximum: nat)
    ensures Inserts(rows, operation, maximum) ==>
              Prepare(rows, operation, maximum).0 ==
              rows[operation.identity := EncodeRow(Persisted(operation, Prepared))]
    ensures !Inserts(rows, operation, maximum) ==> Prepare(rows, operation, maximum).0 == rows
  {
  }

  lemma InsertedIsAccepted(hash: Facts -> Digest, operation: Operation)
    requires Storable(Persisted(operation, Prepared))
    ensures RowAccepted(hash, EncodeRow(Persisted(operation, Prepared))) <==> WellFormed(hash, operation)
  {
    DecodesEncoded(Persisted(operation, Prepared));
  }

  /** Preparing does not check what verification later asks for: an accepted journal stays accepted exactly when
      an operation that will be inserted is well formed. */
  lemma PrepareKeepsAccepted(hash: Facts -> Digest, rows: Rows, operation: Operation, maximum: nat)
    requires Accepted(hash, rows)
    ensures Accepted(hash, Prepare(rows, operation, maximum).0)
      <==> (Inserts(rows, operation, maximum) ==> WellFormed(hash, operation))
  {
    PreparesByGuard(rows, operation, maximum);
    if Inserts(rows, operation, maximum) {
      var after := Prepare(rows, operation, maximum).0;
      InsertedIsAccepted(hash, operation);
      assert operation.identity in after;
      assert forall id | id in after :: id == operation.identity || (id in rows && after[id] == rows[id]);
    }
  }

  /** An operation without frozen facts shows it: it can be prepared in an empty journal, which verification accepts,
      and the journal is refused from then on. */
  lemma PrepareCanSpoil(hash: Facts -> Digest)
    ensures var operation := Operation(Identity(1, 1, 1), "Drafts", 0, None);
      && Accepted(hash, map[])
      && Prepare(map[], operation, 1).1.Ok?
      && !Accepted(hash, Prepare(map[], operation, 1).0)
  {
    PrepareKeepsAccepted(hash, map[], Operation(Identity(1, 1, 1), "Drafts", 0, None), 1);
  }

  lemma CurrentEncoderIsValid(frozen: Frozen)
    requires frozen.encoder == ENCODER
    ensures EncoderValid(frozen)
  {
  }

  /** A re-encoding keeps the fingerprint, which does not cover the encoder. */
  lemma ReencodedIsWellFormed(hash: Facts -> Digest, expected: Operation, content: Digest)
    requires Reencodable(hash, expected)
    ensures WellFormed(hash, Reencoded(expected, content))
  {
    CurrentEncoderIsValid(Reencoded(expected, content).reconstruction.value);
  }

  /** Storing a well-formed operation as prepared is what verification accepts and what is read back. */
  lemma StoringKeepsAccepted(hash: Facts -> Digest, rows: Rows, operation: Operation, after: Rows)
    requires Accepted(hash, rows) && WellFormed(hash, operation) && Storable(Persisted(operation, Prepared))
    requires after == rows[operation.identity := EncodeRow(Persisted(operation, Prepared))]
    ensures Accepted(hash, after)
    ensures Read(after, operation.identity) == Ok(Some(Persisted(operation, Prepared)))
  {
    InsertedIsAccepted(hash, operation);
    DecodesEncoded(Persisted(operation, Prepared));
  }

  /** A successful re-encoding writes what storing the new operation would write. */
  lemma ReencodeStores(hash: Facts -> Digest, rows: Rows, expected: Operation, content: Digest)
    requires Reencode(hash, rows, expected, content).1.Ok?
    ensures Storable(Persisted(Reencoded(expected, content), Prepared))
    ensures Reencode(hash, rows, expected, content).1.value == Persisted(Reencoded(expected, content), Prepared)
    ensures Reencode(hash, rows, expected, content).0 ==
            rows[expected.identity := EncodeRow(Persisted(Reencoded(expected, content), Prepared))]
  {
    EncodesDecoded(rows[expected.identity]);
  }

  lemma ReencodeKeepsAccepted(hash: Facts -> Digest, rows: Rows, expected: Operation, content: Digest)
    requires Accepted(hash, rows)
    ensures Accepted(hash, Reencode(hash, rows, expected, content).0)
    ensures var (after, result) := Reencode(hash, rows, expected, content);
      result.Ok? ==> Read(after, expected.identity) == Ok(Some(result.value))
  {
    if Reencode(hash, rows, expected, content).1.Ok? {
      ReencodeStores(hash, rows, expected, content);
      ReencodedIsWellFormed(hash, expected, content);
      StoringKeepsAccepted(hash, rows, Reencoded(expected, content), Reencode(hash, rows, expected, content).0);
    }
  }

  lemma WriteKeepsAccepted(hash: Facts -> Digest, s: System, connection: nat)
    requires Accepted(hash, s.rows) && Inv(s)
    ensures Accepted(hash, Next(hash, s, Write(connection)).rows)
  {
    if connection in s.pending && s.pending[connection].identity in s.rows {
      var id := s.pending[connection].identity;
      var p := DecodeRow(s.rows[id]).value;
      EncodesDecoded(s.rows[id]);
      match s.pending[connection]
      case Dispatching(_) => DecodesEncoded(p.(state := InFlight));
      case Recording(_, outcome) => DecodesEncoded(p.(state := outcome));
    }
  }

  /** A journal accepted by verification stays accepted through dispatches, outcomes, re-encodings and crashes,
      as long as only well-formed operations are prepared. */
  lemma {:induction false} RunKeepsAccepted(hash: Facts -> Digest, s: System, steps: seq<Step>)
    requires Accepted(hash, s.rows) && Inv(s)
    requires forall step | step in steps && step.PrepareStep? :: WellFormed(hash, step.operation)
    ensures Accepted(hash, Run(hash, s, steps).rows)
    decreases |steps|
  {
    if steps != [] {
      var step := steps[0];
      assert step in steps && forall later | later in steps[1..] :: later in steps;
      match step {
        case PrepareStep(operation, maximum) => PrepareKeepsAccepted(hash, s.rows, operation, maximum);
        case ReencodeStep(expected, content) => ReencodeKeepsAccepted(hash, s.rows, expected, content);
        case Write(connection) => WriteKeepsAccepted(hash, s, connection);
        case _ =>
      }
      StepKeepsInv(hash, s, step);
      RunKeepsAccepted(hash, Next(hash, s, step), steps[1..]);
    }
  }

  // ---- what every call is answered ---------------------------------------------------------------

  /** The identity can be looked up in the table and the mailbox named in it. */
  predicate Addressable(operation: Operation) {
    0 < |operation.mailbox| <= 4096 && operation.identity.generation <= 0x7fff_ffff_ffff_ffff
  }

  /** A preparation in every case: refused outright, or answered with what is stored, if and only if that is the same
      operation, or with a conflict; a new identity is refused if and only if the journal is full. Only the last case
      changes the rows. */
  lemma PreparesExactly(rows: Rows, operation: Operation, maximum: nat)
    requires Addressable(operation)
    ensures var (after, result) := Prepare(rows, operation, maximum);
      var id := operation.identity;
      && (id in rows ==> after == rows)
      && (id in rows && DecodeRow(rows[id]).Err? ==> result == Err(DecodeRow(rows[id]).error))
      && (id in rows && DecodeRow(rows[id]).Ok? ==>
            var prior := DecodeRow(rows[id]).value;
            && (result == Ok(prior) <==> prior.operation == operation)
            && (result == Err(OperationConflict) <==> prior.operation != operation))
      && (id !in rows ==>
            && (result == Err(Full) <==> |rows| >= maximum)
            && (result == Ok(Persisted(operation, Prepared)) <==> |rows| < maximum)
            && (|rows| >= maximum ==> after == rows)
            && (|rows| < maximum ==>
                  && after.Keys == rows.Keys + {id} && DecodeRow(after[id]) == Ok(Persisted(operation, Prepared))
                  && forall other | other in rows :: after[other] == rows[other]))
  {
    if operation.identity !in rows && |rows| < maximum {
      DecodesEncoded(Persisted(operation, Prepared));
    }
  }

  /** An operation that cannot be addressed is refused before anything is read or written. */
  lemma UnaddressableIsRefused(rows: Rows, operation: Operation, maximum: nat)
    requires !Addressable(operation)
    ensures Prepare(rows, operation, maximum).0 == rows
    ensures Prepare(rows, operation, maximum).1 in {Err(InvalidOperation), Err(InvalidDatabase)}
    ensures CheckDispatch(rows, operation) in {Err(InvalidOperation), Err(InvalidDatabase)}
  {
  }

  /** The encoder is named in up to 128 visible ASCII characters, and the fingerprint is that of the facts. */
  predicate SoundFacts(hash: Facts -> Digest, o: Operation, frozen: Frozen) {
    && 1 <= |frozen.encoder| <= 128 && (forall c | c in frozen.encoder :: '!' <= c <= '~')
    && frozen.facts == hash(Facts(o.identity, o.mailbox, frozen.uidValidity, frozen.input, frozen.fromConfiguration,
                                  frozen.selectedFrom, frozen.date))
  }

  /** The facts are enough to dispatch by. */
  predicate WholeFacts(frozen: Frozen) { frozen.uidValidity > 0 && frozen.selectedFrom != None }

  /** What verification asks of a row: it decodes, facts that it has are sound, and while it is prepared it has them and
      they are whole. */
  lemma AcceptsExactly(hash: Facts -> Digest, row: DatabaseRow)
    ensures RowAccepted(hash, row) <==>
      && DecodeRow(row).Ok?
      && var (operation, state) := (DecodeRow(row).value.operation, DecodeRow(row).value.state);
         match operation.reconstruction
         case None => state != Prepared
         case Some(frozen) => SoundFacts(hash, operation, frozen) && (state == Prepared ==> WholeFacts(frozen))
    ensures forall operation :: WellFormed(hash, operation) <==>
      && operation.reconstruction.Some?
      && SoundFacts(hash, operation, operation.reconstruction.value) && WholeFacts(operation.reconstruction.value)
  {
  }

  /** The frozen facts allow a re-encoding: they are sound, whole and written by another encoder. */
  ghost predicate Outdated(hash: Facts -> Digest, operation: Operation) {
    && operation.reconstruction.Some?
    && var frozen := operation.reconstruction.value;
    && SoundFacts(hash, operation, frozen) && WholeFacts(frozen) && frozen.encoder != "mail-builder/2.0.1"
  }

  /** A re-encoding in every case: it goes through if and only if the facts are sound and outdated and the stored row is
      this very operation, still prepared; then exactly the content and the encoder are new. */
  lemma ReencodesExactly(hash: Facts -> Digest, rows: Rows, expected: Operation, content: Digest)
    requires Addressable(expected)
    ensures var (after, result) := Reencode(hash, rows, expected, content);
      var id := expected.identity;
      && (result.Ok? <==> Outdated(hash, expected) && id in rows
                          && DecodeRow(rows[id]) == Ok(Persisted(expected, Prepared)))
      && (result == Err(InvalidOperation) <==> !Outdated(hash, expected))
      && (Outdated(hash, expected) ==>
            && (result == Err(OperationNotPrepared) <==> id !in rows)
            && (id in rows && DecodeRow(rows[id]).Err? ==> result == Err(DecodeRow(rows[id]).error))
            && (id in rows && DecodeRow(rows[id]).Ok? ==>
                  var prior := DecodeRow(rows[id]).value;
                  && (result == Err(OperationConflict) <==> prior.operation != expected)
                  && (prior.operation == expected && prior.state != Prepared ==>
                        result == Err(NotDispatchable(prior.state)))))
      && (result.Err? ==> after == rows)
  {
    if expected.identity in rows {
      DecodeErrors(rows[expected.identity]);
    }
  }

  lemma DecodeErrors(row: DatabaseRow)
    ensures DecodeRow(row).Err? ==> DecodeRow(row).error == InvalidDatabase
  {
  }

  lemma ReencodedIs(hash: Facts -> Digest, rows: Rows, expected: Operation, content: Digest)
    requires Reencode(hash, rows, expected, content).1.Ok?
    ensures var (after, result) := Reencode(hash, rows, expected, content);
      var stored := result.value.operation;
      && stored.identity == expected.identity && stored.mailbox == expected.mailbox
      && stored.content == content && stored.reconstruction.Some?
      && stored.reconstruction.value == expected.reconstruction.value.(encoder := "mail-builder/2.0.1")
      && after.Keys == rows.Keys && DecodeRow(after[expected.identity]) == Ok(Persisted(stored, Prepared))
      && forall other | other in rows && other != expected.identity :: after[other] == rows[other]
  {
    ReencodeStores(hash, rows, expected, content);
    DecodesEncoded(Persisted(Reencoded(expected, content), Prepared));
  }

  /** What a row's state says to a call that needs another one. */
  predicate RefusedFor(result: Result<Persisted, Error>, state: State) {
    result == Err(NotDispatchable(state))
  }

  /** A dispatch in every case: it is allowed if and only if the stored row is this very operation, still prepared. */
  lemma DispatchesExactly(rows: Rows, operation: Operation)
    requires Addressable(operation)
    ensures var result := CheckDispatch(rows, operation);
      var id := operation.identity;
      && (result.Ok? <==> id in rows && DecodeRow(rows[id]) == Ok(Persisted(operation, Prepared)))
      && (result.Ok? ==> result.value == Persisted(operation, Prepared))
      && (result == Err(OperationNotPrepared) <==> id !in rows)
      && (id in rows && DecodeRow(rows[id]).Ok? ==>
            var prior := DecodeRow(rows[id]).value;
            && (result == Err(OperationConflict) <==> prior.operation != operation)
            && (prior.operation == operation && prior.state != Prepared ==> RefusedFor(result, prior.state)))
  {
    if operation.identity in rows {
      DecodeErrors(rows[operation.identity]);
    }
  }

  /** An outcome in every case: the first one needs an operation in flight, and a duplicate an unknown outcome. */
  lemma OutcomesExactly(rows: Rows, id: Identity, outcome: State)
    requires id.generation <= 0x7fff_ffff_ffff_ffff && IsOutcome(outcome)
    ensures var result := CheckOutcome(rows, id, outcome);
      && (result.Ok? <==>
            && id in rows && DecodeRow(rows[id]).Ok?
            && DecodeRow(rows[id]).value.state == if outcome.Duplicate? then OutcomeUnknown else InFlight)
      && (result.Ok? ==> result.value == DecodeRow(rows[id]).value)
      && (result == Err(OperationNotPrepared) <==> id !in rows)
      && (id in rows && DecodeRow(rows[id]).Ok? && result.Err? ==> RefusedFor(result, DecodeRow(rows[id]).value.state))
  {
    if id in rows {
      DecodeErrors(rows[id]);
    }
  }

  /** The fingerprint covers the identity, the mailbox and every frozen fact but the encoder, and nothing else. */
  lemma FingerprintCovers(a: Operation, b: Operation)
    requires a.reconstruction.Some? && b.reconstruction.Some?
    ensures var x, y := a.reconstruction.value, b.reconstruction.value;
      FactsOf(a.identity, a.mailbox, x) == FactsOf(b.identity, b.mailbox, y) <==>
        && a.identity == b.identity && a.mailbox == b.mailbox
        && x.(encoder := "", facts := 0) == y.(encoder := "", facts := 0)
  {
  }
}
