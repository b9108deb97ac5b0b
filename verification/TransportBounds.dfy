/** The byte budget of an MCP session: `Bounds::new`, `Bounds::reservations` and `largest_fitting` of
    src/frontends/mcp_transport.rs. Sizes are unbounded here; under validated limits they stay far below 2^64. */
module TransportBounds {
  import opened Wrappers

  const KIB: nat := 1024
  const MIB: nat := 1024 * 1024
  const FIXED: nat := 64 * KIB
  const MINIMUM: nat := 1024

  datatype Limits = Limits(envelopeBytes: nat, tokenBytes: nat, draftMimeBytes: nat, accounts: nat,
                           activeRequests: nat, queuedRequests: nat, bufferedBytes: nat)

  /** What `Limits::validate` grants of these fields. */
  predicate Valid(l: Limits) {
    && MINIMUM <= l.envelopeBytes <= 64 * MIB
    && 0 < l.tokenBytes <= 8192
    && 0 < l.draftMimeBytes <= 8 * MIB
    && 0 < l.accounts <= 256
    && 0 < l.activeRequests <= 64
    && 0 < l.queuedRequests <= 256
    && 0 < l.bufferedBytes <= 256 * MIB
  }

  datatype Session = Session(limits: Limits, responseBound: nat, drafts: bool, schemaBytes: nat)

  datatype Bounds = Bounds(input: nat, envelope: nat, output: nat, requests: nat)

  datatype Error = SetupRequired

  // ---- binary search -----------------------------------------------------------------------------

  ghost predicate Downward(fits: nat -> bool) {
    forall a: nat, b: nat | a <= b && fits(b) :: fits(a)
  }

  /** The reference: scan down from `upper`. */
  function Largest(lower: nat, upper: nat, fits: nat -> bool): nat
    decreases upper
  {
    if upper <= lower then lower
    else if fits(upper) then upper
    else Largest(lower, upper - 1, fits)
  }

  lemma {:induction false} LargestIs(lower: nat, upper: nat, fits: nat -> bool)
    ensures var r := Largest(lower, upper, fits);
      && lower <= r <= Max(lower, upper)
      && (r == lower || fits(r))
      && (forall x | r < x <= upper :: !fits(x))
    decreases upper
  {
    if upper > lower && !fits(upper) {
      LargestIs(lower, upper - 1, fits);
    }
  }

  method LargestFitting(lower: nat, upper: nat, fits: nat -> bool) returns (r: nat)
    ensures lower <= r <= Max(lower, upper)
    ensures r == lower || fits(r)
    ensures r >= upper || !fits(r + 1)
    ensures Downward(fits) ==> r == Largest(lower, upper, fits)
  {
    r := lower;
    var top := upper;
    while r < top
      invariant lower <= r <= Max(lower, upper)
      invariant r == lower || fits(r)
      invariant r <= top <= upper || (r == lower && top == upper)
      invariant top >= upper || !fits(top + 1)
      decreases top - r
    {
      var candidate := r + (top - r + 1) / 2;
      if fits(candidate) {
        r := candidate;
      } else {
        top := candidate - 1;
      }
    }
    LargestIs(lower, upper, fits);
    if Downward(fits) && upper > lower {
      assert forall x | r < x <= upper :: !fits(x);
    }
  }

  // ---- reservations ------------------------------------------------------------------------------

  function Mime(s: Session): nat {
    if s.drafts then s.limits.draftMimeBytes else 0
  }

  function Structure(envelope: nat, accounts: nat): nat {
    64 * KIB + 64 * Min(accounts * 100, envelope / 3) + 4096 * Min(accounts, envelope / 160)
      + 1024 * Min(256, envelope / 160)
  }

  function Output(input: nat, envelope: nat, schemaBytes: nat): nat {
    Max(Max(3 * envelope + input + 1024, schemaBytes + input + 1024), 32 * KIB)
  }

  function RequestInput(input: nat): nat {
    Min(128 * input, 4 * input + 2 * MIB)
  }

  function Control(input: nat, envelope: nat, schemaBytes: nat): nat {
    var output := Output(input, envelope, schemaBytes);
    Min(272 * input, 12 * input + 4 * MIB) + RequestInput(input) + 2 * output + 2 * Min(output, 2 * MIB)
  }

  function Request(input: nat, envelope: nat, accounts: nat, mime: nat): nat {
    RequestInput(input) + 3 * envelope + Structure(envelope, accounts) + 2 * mime
  }

  predicate Fits(s: Session, input: nat, envelope: nat) {
    FIXED + Control(input, envelope, s.schemaBytes) + Request(input, envelope, s.limits.accounts, Mime(s))
      <= s.limits.bufferedBytes
  }

  lemma StructureGrows(less: nat, envelope: nat, accounts: nat)
    requires less <= envelope
    ensures Structure(less, accounts) <= Structure(envelope, accounts)
  {
    assert less / 3 <= envelope / 3;
    assert less / 160 <= envelope / 160;
  }

  lemma ControlGrows(lessInput: nat, input: nat, lessEnvelope: nat, envelope: nat, schemaBytes: nat)
    requires lessInput <= input && lessEnvelope <= envelope
    ensures Control(lessInput, lessEnvelope, schemaBytes) <= Control(input, envelope, schemaBytes)
  {
    assert Output(lessInput, lessEnvelope, schemaBytes) <= Output(input, envelope, schemaBytes);
  }

  lemma RequestGrows(lessInput: nat, input: nat, lessEnvelope: nat, envelope: nat, accounts: nat, mime: nat)
    requires lessInput <= input && lessEnvelope <= envelope
    ensures Request(lessInput, lessEnvelope, accounts, mime) <= Request(input, envelope, accounts, mime)
  {
    StructureGrows(lessEnvelope, envelope, accounts);
  }

  lemma FitsIsDownward(s: Session, input: nat, envelope: nat, lessInput: nat, lessEnvelope: nat)
    requires Fits(s, input, envelope) && lessInput <= input && lessEnvelope <= envelope
    ensures Fits(s, lessInput, lessEnvelope)
  {
    ControlGrows(lessInput, input, lessEnvelope, envelope, s.schemaBytes);
    RequestGrows(lessInput, input, lessEnvelope, envelope, s.limits.accounts, Mime(s));
  }

  function InputFits(s: Session, envelope: nat): nat -> bool {
    (candidate: nat) => Fits(s, candidate, envelope)
  }

  function EnvelopeFits(s: Session, input: nat): nat -> bool {
    (candidate: nat) => Fits(s, input, candidate)
  }

  lemma InputsAreDownward(s: Session, envelope: nat)
    ensures Downward(InputFits(s, envelope))
  {
    forall a: nat, b: nat | a <= b && InputFits(s, envelope)(b)
      ensures InputFits(s, envelope)(a)
    {
      FitsIsDownward(s, b, envelope, a, envelope);
    }
  }

  lemma EnvelopesAreDownward(s: Session, input: nat)
    ensures Downward(EnvelopeFits(s, input))
  {
    forall a: nat, b: nat | a <= b && EnvelopeFits(s, input)(b)
      ensures EnvelopeFits(s, input)(a)
    {
      FitsIsDownward(s, input, b, input, a);
    }
  }

  // ---- the split ---------------------------------------------------------------------------------

  function InputLimit(s: Session): nat {
    Min(s.limits.envelopeBytes, if s.drafts then 6 * s.limits.draftMimeBytes + 256 * KIB else MIB)
  }

  function EnvelopeLimit(s: Session): nat {
    Min(s.responseBound, s.limits.envelopeBytes)
  }

  function ReservedInput(s: Session): nat {
    if s.drafts then MINIMUM
    else Largest(MINIMUM, Min(InputLimit(s), 6 * 32 * 4096 + 2 * s.limits.tokenBytes + 4096), InputFits(s, MINIMUM))
  }

  function ReservedEnvelope(s: Session): nat {
    Largest(MINIMUM, Min(EnvelopeLimit(s), if s.drafts then 64 * KIB else 4 * MIB), EnvelopeFits(s, ReservedInput(s)))
  }

  function Input(s: Session): nat {
    Largest(MINIMUM, InputLimit(s), InputFits(s, ReservedEnvelope(s)))
  }

  function Envelope(s: Session): nat {
    Largest(0, EnvelopeLimit(s), EnvelopeFits(s, Input(s)))
  }

  method SearchReservedInput(s: Session) returns (input: nat)
    ensures input == ReservedInput(s)
  {
    if s.drafts {
      return MINIMUM;
    }
    InputsAreDownward(s, MINIMUM);
    input := LargestFitting(
      MINIMUM, Min(InputLimit(s), 6 * 32 * 4096 + 2 * s.limits.tokenBytes + 4096), InputFits(s, MINIMUM));
  }

  method SearchReservedEnvelope(s: Session, reservedInput: nat) returns (envelope: nat)
    requires reservedInput == ReservedInput(s)
    ensures envelope == ReservedEnvelope(s)
  {
    EnvelopesAreDownward(s, reservedInput);
    envelope := LargestFitting(
      MINIMUM, Min(EnvelopeLimit(s), if s.drafts then 64 * KIB else 4 * MIB), EnvelopeFits(s, reservedInput));
  }

  method SearchInput(s: Session, reservedEnvelope: nat) returns (input: nat)
    requires reservedEnvelope == ReservedEnvelope(s)
    ensures input == Input(s)
  {
    InputsAreDownward(s, reservedEnvelope);
    input := LargestFitting(MINIMUM, InputLimit(s), InputFits(s, reservedEnvelope));
  }

  method SearchEnvelope(s: Session, input: nat) returns (envelope: nat)
    requires input == Input(s)
    ensures envelope == Envelope(s)
  {
    EnvelopesAreDownward(s, input);
    envelope := LargestFitting(0, EnvelopeLimit(s), EnvelopeFits(s, input));
  }

  /** The chain of searches: each one keeps what the one before reserved. */
  method Split(s: Session) returns (input: nat, envelope: nat)
    ensures input == Input(s) && envelope == Envelope(s)
  {
    var reservedInput := SearchReservedInput(s);
    var reservedEnvelope := SearchReservedEnvelope(s, reservedInput);
    input := SearchInput(s, reservedEnvelope);
    envelope := SearchEnvelope(s, input);
  }

  method New(s: Session) returns (result: Result<Bounds, Error>)
    requires Valid(s.limits)
    ensures result.Ok? <==> Fits(s, MINIMUM, MINIMUM) && s.responseBound >= MINIMUM
    ensures result.Ok? ==> Plan(s, result.value)
  {
    if s.limits.bufferedBytes < FIXED {
      return Err(SetupRequired);
    }
    var available := s.limits.bufferedBytes - FIXED;
    if !Fits(s, MINIMUM, MINIMUM) {
      return Err(SetupRequired);
    }
    var input, envelope := Split(s);
    SplitFits(s);
    if envelope < MINIMUM {
      return Err(SetupRequired);
    }
    EnvelopeIsLargest(s);
    var control := Control(input, envelope, s.schemaBytes);
    var request := Request(input, envelope, s.limits.accounts, Mime(s));
    var requests := Admitted(available - control, request, s.limits.activeRequests + s.limits.queuedRequests);
    return Ok(Bounds(input, envelope, Output(input, envelope, s.schemaBytes), requests));
  }

  method Admitted(free: nat, request: nat, most: nat) returns (requests: nat)
    requires 0 < request <= free && 0 < most
    ensures MostRequests(free, request, most, requests)
  {
    requests := Min(free / request, most);
    assert free == free / request * request + free % request;
    Scales(requests, free / request, request);
  }

  /** At least one request and no more than `most`, all of them fitting, and no further one that would. */
  predicate MostRequests(free: nat, request: nat, most: nat, requests: nat) {
    && 1 <= requests <= most
    && requests * request <= free
    && (requests < most ==> free < (requests + 1) * request)
  }

  /** Sizes of at least the minimum that fit together, neither of which can be raised alone. */
  ghost predicate LargestSizes(s: Session, input: nat, envelope: nat) {
    && MINIMUM <= ReservedInput(s) <= input <= InputLimit(s)
    && MINIMUM <= ReservedEnvelope(s) <= envelope <= EnvelopeLimit(s)
    && Fits(s, input, envelope)
    && (forall i | input < i <= InputLimit(s) :: !Fits(s, i, ReservedEnvelope(s)))
    && (forall e | envelope < e <= EnvelopeLimit(s) :: !Fits(s, input, e))
  }

  /** A sound and maximal split: the fixed part, the control reservation and every request reservation fit the
      budget together. */
  ghost predicate Plan(s: Session, b: Bounds) {
    var reserved := FIXED + Control(b.input, b.envelope, s.schemaBytes);
    && LargestSizes(s, b.input, b.envelope)
    && b.output == Output(b.input, b.envelope, s.schemaBytes)
    && reserved <= s.limits.bufferedBytes
    && MostRequests(s.limits.bufferedBytes - reserved, Request(b.input, b.envelope, s.limits.accounts, Mime(s)),
                    s.limits.activeRequests + s.limits.queuedRequests, b.requests)
  }

  lemma Scales(a: nat, b: nat, factor: nat)
    requires a <= b
    ensures a * factor <= b * factor
  {
  }

  lemma LargestFits(lower: nat, upper: nat, fits: nat -> bool)
    requires lower <= upper && fits(lower)
    ensures lower <= Largest(lower, upper, fits) <= upper && fits(Largest(lower, upper, fits))
  {
    LargestIs(lower, upper, fits);
  }

  lemma InputSplit(s: Session)
    requires Valid(s.limits) && Fits(s, MINIMUM, MINIMUM)
    ensures MINIMUM <= ReservedInput(s) <= InputLimit(s) && Fits(s, ReservedInput(s), MINIMUM)
  {
    if !s.drafts {
      var fits, upper := InputFits(s, MINIMUM), Min(InputLimit(s), 6 * 32 * 4096 + 2 * s.limits.tokenBytes + 4096);
      LargestFits(MINIMUM, upper, fits);
      assert fits(Largest(MINIMUM, upper, fits)) == Fits(s, ReservedInput(s), MINIMUM);
    }
  }

  lemma EnvelopeSplit(s: Session)
    requires Valid(s.limits) && Fits(s, MINIMUM, MINIMUM)
    ensures MINIMUM <= ReservedEnvelope(s) && Fits(s, ReservedInput(s), ReservedEnvelope(s))
    ensures s.responseBound >= MINIMUM ==> ReservedEnvelope(s) <= EnvelopeLimit(s)
  {
    InputSplit(s);
    var upper := Min(EnvelopeLimit(s), if s.drafts then 64 * KIB else 4 * MIB);
    LargestIs(MINIMUM, upper, EnvelopeFits(s, ReservedInput(s)));
  }

  lemma InputIsLargest(s: Session)
    requires Valid(s.limits) && Fits(s, MINIMUM, MINIMUM)
    ensures ReservedInput(s) <= Input(s) <= InputLimit(s) && Fits(s, Input(s), ReservedEnvelope(s))
    ensures forall i | Input(s) < i <= InputLimit(s) :: !Fits(s, i, ReservedEnvelope(s))
  {
    InputSplit(s);
    EnvelopeSplit(s);
    var inputs := InputFits(s, ReservedEnvelope(s));
    LargestIs(MINIMUM, InputLimit(s), inputs);
    assert inputs(ReservedInput(s));
    assert forall i: nat :: inputs(i) == Fits(s, i, ReservedEnvelope(s));
    if Input(s) == MINIMUM {
      FitsIsDownward(s, ReservedInput(s), ReservedEnvelope(s), MINIMUM, ReservedEnvelope(s));
    }
  }

  /** Each search starts from sizes that fit, so the split that comes out fits too. */
  lemma SplitFits(s: Session)
    requires Valid(s.limits) && Fits(s, MINIMUM, MINIMUM)
    ensures MINIMUM <= ReservedInput(s) <= Input(s) <= InputLimit(s)
    ensures MINIMUM <= ReservedEnvelope(s) && Fits(s, Input(s), ReservedEnvelope(s))
    ensures forall i | Input(s) < i <= InputLimit(s) :: !Fits(s, i, ReservedEnvelope(s))
    ensures if s.responseBound >= MINIMUM then ReservedEnvelope(s) <= Envelope(s) <= EnvelopeLimit(s)
            else Envelope(s) < MINIMUM
  {
    InputSplit(s);
    EnvelopeSplit(s);
    InputIsLargest(s);
    var envelopes := EnvelopeFits(s, Input(s));
    LargestIs(0, EnvelopeLimit(s), envelopes);
    assert envelopes(ReservedEnvelope(s));
  }

  lemma EnvelopeIsLargest(s: Session)
    requires Envelope(s) > 0
    ensures Fits(s, Input(s), Envelope(s))
    ensures forall e | Envelope(s) < e <= EnvelopeLimit(s) :: !Fits(s, Input(s), e)
  {
    var envelopes := EnvelopeFits(s, Input(s));
    LargestIs(0, EnvelopeLimit(s), envelopes);
    assert forall e: nat :: envelopes(e) == Fits(s, Input(s), e);
  }

  // ---- what each search reserves -----------------------------------------------------------------

  /** The searches of downward closed predicates are thresholds: everything above the lower end that is allowed and
      fits is up to the result, and nothing else is. */
  lemma LargestExactly(lower: nat, upper: nat, fits: nat -> bool, n: nat)
    requires Downward(fits) && lower < n
    ensures n <= Largest(lower, upper, fits) <==> n <= upper && fits(n)
  {
    LargestIs(lower, upper, fits);
  }

  /** Read-only sessions reserve input for full search arguments, in which six bytes may stand for one; with drafts the
      least input is reserved, since the input comes first there. */
  lemma ReservedInputExactly(s: Session, n: nat)
    requires 1024 < n
    ensures s.drafts ==> ReservedInput(s) == 1024
    ensures !s.drafts ==> (
      n <= ReservedInput(s) <==>
        && n <= s.limits.envelopeBytes && n <= 1048576 && n <= 6 * 32 * 4096 + 2 * s.limits.tokenBytes + 4096
        && Fits(s, n, 1024))
  {
    InputsAreDownward(s, MINIMUM);
    if !s.drafts {
      LargestExactly(
        MINIMUM, Min(InputLimit(s), 6 * 32 * 4096 + 2 * s.limits.tokenBytes + 4096), InputFits(s, MINIMUM), n);
    }
  }

  /** Beside that input an envelope is reserved, of up to 64 KiB with drafts and up to 4 MiB without. */
  lemma ReservedEnvelopeExactly(s: Session, n: nat)
    requires 1024 < n
    ensures n <= ReservedEnvelope(s) <==>
      && n <= s.responseBound && n <= s.limits.envelopeBytes && n <= (if s.drafts then 65536 else 4194304)
      && Fits(s, ReservedInput(s), n)
  {
    EnvelopesAreDownward(s, ReservedInput(s));
    LargestExactly(
      MINIMUM, Min(EnvelopeLimit(s), if s.drafts then 64 * KIB else 4 * MIB), EnvelopeFits(s, ReservedInput(s)), n);
  }

  /** The input is as large as the reserved envelope leaves room for, and the envelope as large as that input does. */
  lemma SizesExactly(s: Session, n: nat)
    requires 1024 < n
    ensures n <= Input(s) <==>
      && n <= s.limits.envelopeBytes && n <= (if s.drafts then 6 * s.limits.draftMimeBytes + 262144 else 1048576)
      && Fits(s, n, ReservedEnvelope(s))
    ensures n <= Envelope(s) <==> n <= s.responseBound && n <= s.limits.envelopeBytes && Fits(s, Input(s), n)
  {
    InputsAreDownward(s, ReservedEnvelope(s));
    LargestExactly(MINIMUM, InputLimit(s), InputFits(s, ReservedEnvelope(s)), n);
    EnvelopesAreDownward(s, Input(s));
    LargestExactly(0, EnvelopeLimit(s), EnvelopeFits(s, Input(s)), n);
  }

  /** A read-only session that can hold full search arguments beside the least envelope accepts them in the end, however
      large an envelope it chooses. */
  lemma SearchArgumentsAreKept(s: Session)
    requires Valid(s.limits) && !s.drafts && Fits(s, 1024, 1024)
    requires var full := 786432 + 2 * s.limits.tokenBytes + 4096;
      full <= s.limits.envelopeBytes && Fits(s, full, 1024)
    ensures 786432 + 2 * s.limits.tokenBytes + 4096 <= Input(s)
  {
    ReservedInputExactly(s, 786432 + 2 * s.limits.tokenBytes + 4096);
    InputIsLargest(s);
  }

  /** What a frame of that size reserves, and what the least one does, beside schemas of 64 KiB. */
  lemma Reservations()
    ensures Control(794624, 1024, 65536) == 22450176 && Request(794624, 1024, 40, 0) == 5396800
    ensures Control(1024, 1024, 65536) == 679936 && Request(1024, 1024, 40, 1048576) == 2349376
    ensures Control(1024, 16777216, 65536) == 105271296 && Control(1024, 1024, 0) == 540672
    ensures Structure(16777216, 40) == 747520 && Structure(40000, 256) == 2198848
  {
    assert Structure(1024, 40) == 118080;
  }

  /** The least budget holds the least sizes, and one byte less does not. */
  lemma LeastBudget(s: Session, bytes: nat)
    requires s == Session(Limits(16777216, 2048, 1048576, 40, 16, 64, bytes), 16777216, false, 65536)
    ensures Fits(s, 1024, 1024) <==> bytes >= 997696
  {
    Reservations();
    assert Request(1024, 1024, 40, 0) == 252224;
  }

  /** The default limits, with forty accounts and those schemas, keep full search arguments. */
  lemma DefaultsKeepSearchArguments(s: Session)
    requires s == Session(Limits(16777216, 2048, 1048576, 40, 16, 64, 67108864), 16777216, false, 65536)
    ensures Input(s) >= 794624
  {
    Reservations();
    assert Fits(s, 794624, 1024);
    FitsIsDownward(s, 794624, 1024, 1024, 1024);
    SearchArgumentsAreKept(s);
  }
}
