/** Chunked attachment download: `transfer_attachment` and `download_attachment` of `src/frontends/application.rs`. */
module Download {
  import opened Wrappers
  import opened Base64

  datatype Error = InternalError | ResponseTooLarge | Provider(code: nat)

  datatype Progress = Continue(token: string) | Complete(total: nat, sha256: string)

  /** A text is its bytes, one character each. */
  datatype Chunk = Chunk(reference: string, bytesBase64: string, decodedOffset: nat, progress: Progress)

  /** A transfer starts at an attachment or at a continuation the caller holds. */
  datatype Input = Start(attachment: string) | Resume(token: string)

  /** What one request comes back with: an attachment chunk, some other result or an error. */
  datatype Reply = Attachment(chunk: Chunk) | Other | Failure(error: Error)

  /** One turn of the loop: the reply, and whether the allocator grants a larger buffer if one is asked for. */
  datatype Turn = Turn(reply: Reply, allocates: bool)

  datatype Limits = Limits(decoded: nat, envelope: nat)

  /** The buffer shared by the chunks, with the capacity it has been granted. */
  datatype Buffer = Buffer(bytes: seq<byte>, capacity: nat)

  datatype Outcome = Waiting(input: Input) | Failed(error: Error) | Finished(chunk: Chunk)

  // ---- sizes known before decoding ----------------------------------------------------------------

  /** How many padding characters end the text, however many there are. */
  function TrailingPadding(text: string): (n: nat)
    ensures n <= |text|
    decreases |text|
  {
    if text != "" && text[|text| - 1] == '=' then 1 + TrailingPadding(text[..|text| - 1]) else 0
  }

  function DecodedSize(text: string): nat {
    var whole := |text| / 4 * 3;
    if whole < TrailingPadding(text) then 0 else whole - TrailingPadding(text)
  }

  /** What a base64 decoder sets aside before it looks at the padding. */
  function Estimate(text: string): nat {
    (|text| + 3) / 4 * 3
  }

  function EncodedSize(n: nat): nat {
    (n + 2) / 3 * 4
  }

  lemma {:induction false} PaddingAlone(text: string, pad: string)
    requires text == "" || text[|text| - 1] != '='
    requires forall i :: 0 <= i < |pad| ==> pad[i] == '='
    ensures TrailingPadding(text + pad) == |pad|
    decreases |pad|
  {
    if pad == "" {
      assert text + pad == text;
    } else {
      var all := text + pad;
      assert all[..|all| - 1] == text + pad[..|pad| - 1];
      PaddingAlone(text, pad[..|pad| - 1]);
    }
  }

  lemma EncodingPadding(bytes: seq<byte>)
    ensures TrailingPadding(EncodePadded(bytes)) == |Padding(|bytes|)|
  {
    var body := Encode(Standard, bytes);
    EncodeWritesSymbols(Standard, bytes);
    if body != "" {
      assert body[|body| - 1] in body;
    }
    PaddingAlone(body, Padding(|bytes|));
  }

  lemma Thirds(n: nat, encoded: nat, padding: nat)
    requires encoded == n / 3 * 4 + (if n % 3 == 0 then 0 else 4)
    requires padding == if n % 3 == 0 then 0 else 3 - n % 3
    ensures encoded / 4 * 3 == n + padding && (encoded + 3) / 4 * 3 == n + padding
    ensures encoded == EncodedSize(n)
  {
    var q, r := n / 3, n % 3;
    assert n == 3 * q + r;
    if r == 0 {
      assert encoded == 4 * q;
      assert (n + 2) / 3 == q;
    } else {
      assert encoded == 4 * (q + 1);
      assert (n + 2) / 3 == q + 1;
    }
  }

  /** What the text alone says about a text that decodes to `n` bytes: the computed size is exact, the decoder's own
      estimate is at most two bytes more, and the length is that of an encoding. */
  predicate Sized(text: string, n: nat) {
    DecodedSize(text) == n && n <= Estimate(text) <= n + 2 && |text| == EncodedSize(n)
  }

  lemma SizeIsExact(bytes: seq<byte>)
    ensures Sized(EncodePadded(bytes), |bytes|)
  {
    PaddedLength(bytes);
    EncodingPadding(bytes);
    Thirds(|bytes|, |EncodePadded(bytes)|, TrailingPadding(EncodePadded(bytes)));
  }

  /** What the transfer relies on in its base64 engine. */
  ghost predicate Reliable(e: Engine) {
    Strict(e) && forall bytes :: Sized(e.encode(bytes), |bytes|)
  }

  lemma StandardIsReliable()
    ensures Reliable(STANDARD)
  {
    StandardIsStrict();
    forall bytes
      ensures Sized(STANDARD.encode(bytes), |bytes|)
    {
      SizeIsExact(bytes);
    }
  }

  // ---- one chunk ----------------------------------------------------------------------------------

  predicate TooLarge(total: nat, chunk: Chunk, limits: Limits) {
    total > limits.decoded || EncodedSize(total) + 4096 + |chunk.reference| > limits.envelope
  }

  /** The capacity to ask for: twice what there is, but at least what is needed and at most the ceiling. */
  function Capacity(needed: nat, capacity: nat, limits: Limits): nat {
    if capacity < needed then Min(Max(needed, 2 * capacity), limits.decoded + 2) else capacity
  }

  function Absorb(e: Engine, buffer: Buffer, chunk: Chunk, limits: Limits, allocates: bool): Result<Buffer, Error> {
    var total := |buffer.bytes| + DecodedSize(chunk.bytesBase64);
    if chunk.decodedOffset != |buffer.bytes| then Err(InternalError)
    else if TooLarge(total, chunk, limits) then Err(ResponseTooLarge)
    else if buffer.capacity < total + 2 && !allocates then Err(ResponseTooLarge)
    else match e.decode(chunk.bytesBase64)
      case None => Err(InternalError)
      case Some(bytes) => Ok(Buffer(buffer.bytes + bytes, Capacity(total + 2, buffer.capacity, limits)))
  }

  /** The reply a finished download gives: the last chunk, holding the whole from offset zero. */
  function Whole(e: Engine, last: Chunk, bytes: seq<byte>): Chunk {
    last.(bytesBase64 := e.encode(bytes), decodedOffset := 0)
  }

  /** The consumer a download hands to the transfer loop. */
  method AbsorbChunk(e: Engine, buffer: Buffer, chunk: Chunk, limits: Limits, allocates: bool)
    returns (result: Result<Buffer, Error>)
    ensures result == Absorb(e, buffer, chunk, limits, allocates)
  {
    var bytes, capacity := buffer.bytes, buffer.capacity;
    if chunk.decodedOffset != |bytes| {
      return Err(InternalError);
    }
    var total := |bytes| + DecodedSize(chunk.bytesBase64);
    if total > limits.decoded || EncodedSize(total) + 4096 + |chunk.reference| > limits.envelope {
      return Err(ResponseTooLarge);
    }
    if capacity < total + 2 {
      if !allocates {
        return Err(ResponseTooLarge);
      }
      capacity := Min(Max(total + 2, capacity * 2), limits.decoded + 2);
    }
    var decoded := e.decode(chunk.bytesBase64);
    if decoded.None? {
      return Err(InternalError);
    }
    return Ok(Buffer(bytes + decoded.value, capacity));
  }

  // ---- the loop -----------------------------------------------------------------------------------

  type Consume = (Buffer, Chunk, bool) -> Result<Buffer, Error>

  function Transfer(e: Engine, consume: Consume, input: Input, buffer: Buffer, turns: seq<Turn>): Outcome
    decreases |turns|
  {
    if turns == [] then Waiting(input)
    else match turns[0].reply
      case Failure(error) => Failed(error)
      case Other => Failed(InternalError)
      case Attachment(chunk) =>
        match consume(buffer, chunk, turns[0].allocates)
        case Err(error) => Failed(error)
        case Ok(next) =>
          match chunk.progress
          case Complete(_, _) => Finished(Whole(e, chunk, next.bytes))
          case Continue(token) => Transfer(e, consume, Resume(token), next, turns[1..])
  }

  function Consumer(e: Engine, limits: Limits): Consume {
    (buffer, chunk, allocates) => Absorb(e, buffer, chunk, limits, allocates)
  }

  function Download(e: Engine, input: Input, turns: seq<Turn>, limits: Limits): Outcome {
    Transfer(e, Consumer(e, limits), input, Buffer([], 0), turns)
  }

  /** The loop, over the replies that come back; it is left waiting when they run out. */
  method DownloadAttachment(e: Engine, first: Input, turns: seq<Turn>, limits: Limits) returns (outcome: Outcome)
    ensures outcome == Download(e, first, turns, limits)
  {
    var input := first;
    var buffer := Buffer([], 0);
    var i := 0;
    while i < |turns|
      invariant 0 <= i <= |turns|
      invariant Transfer(e, Consumer(e, limits), input, buffer, turns[i..]) == Download(e, first, turns, limits)
    {
      assert turns[i..][0] == turns[i] && turns[i..][1..] == turns[i + 1..];
      if turns[i].reply.Failure? {
        return Failed(turns[i].reply.error);
      }
      if turns[i].reply.Other? {
        return Failed(InternalError);
      }
      var chunk := turns[i].reply.chunk;
      var consumed := AbsorbChunk(e, buffer, chunk, limits, turns[i].allocates);
      if consumed.Err? {
        return Failed(consumed.error);
      }
      buffer := consumed.value;
      if chunk.progress.Complete? {
        return Finished(chunk.(bytesBase64 := e.encode(buffer.bytes), decodedOffset := 0));
      }
      input := Resume(chunk.progress.token);
      i := i + 1;
    }
    return Waiting(input);
  }

  // ---- memory -------------------------------------------------------------------------------------

  /** The growth that amortizes: twice the old capacity, or what is needed if that is more, up to the ceiling. */
  predicate GrowsTo(capacity: nat, needed: nat, limits: Limits, grown: nat) {
    && needed <= grown <= limits.decoded + 2
    && (grown < limits.decoded + 2 ==> 2 * capacity <= grown && (grown == needed || grown == 2 * capacity))
    && (grown == limits.decoded + 2 ==> grown <= needed || grown <= 2 * capacity)
  }

  /** The buffer is never asked to exceed the decoded limit by more than two bytes, and the decoder's estimate fits in
      what was asked for, so decoding a chunk never grows it further; a buffer that is large enough is left alone. */
  lemma AbsorbIsBounded(e: Engine, buffer: Buffer, chunk: Chunk, limits: Limits, allocates: bool)
    requires Reliable(e) && buffer.capacity <= limits.decoded + 2
    requires Absorb(e, buffer, chunk, limits, allocates).Ok?
    ensures var next := Absorb(e, buffer, chunk, limits, allocates).value;
            && |next.bytes| <= limits.decoded
            && next.capacity <= limits.decoded + 2
            && |buffer.bytes| + Estimate(chunk.bytesBase64) <= next.capacity
            && (|next.bytes| + 2 <= buffer.capacity ==> next.capacity == buffer.capacity)
            && (buffer.capacity < |next.bytes| + 2 ==>
                  GrowsTo(buffer.capacity, |next.bytes| + 2, limits, next.capacity))
  {
    assert Sized(e.encode(e.decode(chunk.bytesBase64).value), |e.decode(chunk.bytesBase64).value|);
  }

  // ---- every chunking -----------------------------------------------------------------------------

  function Concat(pieces: seq<seq<byte>>): seq<byte> {
    if pieces == [] then [] else pieces[0] + Concat(pieces[1..])
  }

  /** The chunk carries `piece` as the bytes from `offset` on, within the limits. */
  predicate CarriesPiece(e: Engine, limits: Limits, chunk: Chunk, piece: seq<byte>, offset: nat) {
    && chunk.bytesBase64 == e.encode(piece)
    && chunk.decodedOffset == offset
    && FitsReply(offset + |piece|, chunk, limits)
  }

  /** The bytes so far are within the decoded limit, and their encoding, the reference and 4096 bytes beside them within
      the envelope. */
  predicate FitsReply(total: nat, chunk: Chunk, limits: Limits) {
    total <= limits.decoded && (total + 2) / 3 * 4 + 4096 + |chunk.reference| <= limits.envelope
  }

  lemma TooLargeExactly(total: nat, chunk: Chunk, limits: Limits)
    ensures TooLarge(total, chunk, limits) <==> !FitsReply(total, chunk, limits)
  {
  }

  type Carry = (Chunk, seq<byte>, nat) -> bool

  function Carrier(e: Engine, limits: Limits): Carry {
    (chunk: Chunk, piece: seq<byte>, offset: nat) => CarriesPiece(e, limits, chunk, piece, offset)
  }

  /** The chunks carry the pieces one after the other; only the last is marked complete. */
  predicate Carries(carry: Carry, chunks: seq<Chunk>, pieces: seq<seq<byte>>, from: nat)
    decreases |chunks|
  {
    && |chunks| == |pieces| > 0
    && carry(chunks[0], pieces[0], from)
    && (|chunks| == 1 <==> chunks[0].progress.Complete?)
    && (|chunks| > 1 ==> Carries(carry, chunks[1..], pieces[1..], from + |pieces[0]|))
  }

  /** The first replies are exactly these chunks. */
  predicate Replies(turns: seq<Turn>, chunks: seq<Chunk>) {
    |chunks| <= |turns| && forall i :: 0 <= i < |chunks| ==> turns[i].reply == Attachment(chunks[i])
  }

  /** What is consumed is carried: the bytes added are the piece the chunk decodes to. */
  ghost predicate OnlyCarried(e: Engine, consume: Consume, carry: Carry) {
    forall buffer: Buffer, chunk: Chunk, allocates: bool :: consume(buffer, chunk, allocates).Ok? ==>
      && e.decode(chunk.bytesBase64).Some?
      && carry(chunk, e.decode(chunk.bytesBase64).value, |buffer.bytes|)
      && consume(buffer, chunk, allocates).value.bytes == buffer.bytes + e.decode(chunk.bytesBase64).value
  }

  /** What is carried is consumed when the buffer is granted. */
  ghost predicate AllCarried(consume: Consume, carry: Carry) {
    forall buffer: Buffer, chunk: Chunk, piece: seq<byte> :: carry(chunk, piece, |buffer.bytes|) ==>
      && consume(buffer, chunk, true).Ok?
      && consume(buffer, chunk, true).value.bytes == buffer.bytes + piece
  }

  lemma AbsorbsExactly(e: Engine, buffer: Buffer, chunk: Chunk, limits: Limits, allocates: bool)
    requires Reliable(e) && Absorb(e, buffer, chunk, limits, allocates).Ok?
    ensures e.decode(chunk.bytesBase64).Some?
    ensures CarriesPiece(e, limits, chunk, e.decode(chunk.bytesBase64).value, |buffer.bytes|)
  {
    var piece := e.decode(chunk.bytesBase64).value;
    assert Sized(e.encode(piece), |piece|);
  }

  lemma AbsorbsPiece(e: Engine, buffer: Buffer, chunk: Chunk, piece: seq<byte>, limits: Limits)
    requires Reliable(e) && CarriesPiece(e, limits, chunk, piece, |buffer.bytes|)
    ensures Absorb(e, buffer, chunk, limits, true).Ok?
    ensures Absorb(e, buffer, chunk, limits, true).value.bytes == buffer.bytes + piece
  {
    assert Sized(e.encode(piece), |piece|);
  }

  lemma ConsumerMatchesCarrier(e: Engine, limits: Limits)
    requires Reliable(e)
    ensures OnlyCarried(e, Consumer(e, limits), Carrier(e, limits))
    ensures AllCarried(Consumer(e, limits), Carrier(e, limits))
  {
    forall buffer: Buffer, chunk: Chunk, allocates: bool | Absorb(e, buffer, chunk, limits, allocates).Ok?
      ensures e.decode(chunk.bytesBase64).Some?
      ensures CarriesPiece(e, limits, chunk, e.decode(chunk.bytesBase64).value, |buffer.bytes|)
    {
      AbsorbsExactly(e, buffer, chunk, limits, allocates);
    }
    forall buffer: Buffer, chunk: Chunk, piece: seq<byte> | CarriesPiece(e, limits, chunk, piece, |buffer.bytes|)
      ensures Absorb(e, buffer, chunk, limits, true).Ok?
      ensures Absorb(e, buffer, chunk, limits, true).value.bytes == buffer.bytes + piece
    {
      AbsorbsPiece(e, buffer, chunk, piece, limits);
    }
  }

  lemma {:induction false} TransferIsWhole(e: Engine, consume: Consume, carry: Carry, input: Input, buffer: Buffer,
                                           turns: seq<Turn>)
    returns (chunks: seq<Chunk>, pieces: seq<seq<byte>>)
    requires OnlyCarried(e, consume, carry) && Transfer(e, consume, input, buffer, turns).Finished?
    ensures Replies(turns, chunks) && Carries(carry, chunks, pieces, |buffer.bytes|)
    ensures Transfer(e, consume, input, buffer, turns) ==
            Finished(Whole(e, chunks[|chunks| - 1], buffer.bytes + Concat(pieces)))
    decreases |turns|
  {
    var chunk := turns[0].reply.chunk;
    var next := consume(buffer, chunk, turns[0].allocates).value;
    var piece := e.decode(chunk.bytesBase64).value;
    match chunk.progress
    case Complete(_, _) =>
      chunks, pieces := [chunk], [piece];
      assert Concat([piece]) == piece + Concat([]);
      assert buffer.bytes + Concat([piece]) == next.bytes;
    case Continue(token) =>
      var tail, rest := TransferIsWhole(e, consume, carry, Resume(token), next, turns[1..]);
      chunks, pieces := [chunk] + tail, [piece] + rest;
      assert chunks[1..] == tail && pieces[1..] == rest;
      assert buffer.bytes + Concat(pieces) == next.bytes + Concat(rest);
  }

  lemma {:induction false} WholeTransfers(e: Engine, consume: Consume, carry: Carry, input: Input, buffer: Buffer,
                                          turns: seq<Turn>, chunks: seq<Chunk>, pieces: seq<seq<byte>>)
    requires AllCarried(consume, carry) && Replies(turns, chunks) && Carries(carry, chunks, pieces, |buffer.bytes|)
    requires forall i :: 0 <= i < |chunks| ==> turns[i].allocates
    ensures Transfer(e, consume, input, buffer, turns) ==
            Finished(Whole(e, chunks[|chunks| - 1], buffer.bytes + Concat(pieces)))
    decreases |turns|
  {
    var chunk := chunks[0];
    assert turns[0].reply == Attachment(chunk) && turns[0].allocates;
    var next := consume(buffer, chunk, true).value;
    assert buffer.bytes + Concat(pieces) == next.bytes + Concat(pieces[1..]);
    if |chunks| == 1 {
      assert next.bytes + Concat(pieces[1..]) == next.bytes;
    } else {
      WholeTransfers(e, consume, carry, Resume(chunk.progress.token), next, turns[1..], chunks[1..], pieces[1..]);
    }
  }

  /** The reply decodes to the whole from offset zero, and is the last chunk in everything else. */
  predicate HoldsAll(e: Engine, reply: Chunk, last: Chunk, bytes: seq<byte>) {
    && e.decode(reply.bytesBase64) == Some(bytes)
    && reply.decodedOffset == 0
    && reply.reference == last.reference && reply.progress == last.progress
  }

  /** A download that finishes read chunks that carry some byte string contiguously from offset zero, the last of them
      marked complete, and it returns the base64 of the whole string. */
  lemma DownloadIsWhole(e: Engine, input: Input, turns: seq<Turn>, limits: Limits)
    returns (chunks: seq<Chunk>, pieces: seq<seq<byte>>)
    requires Reliable(e) && Download(e, input, turns, limits).Finished?
    ensures Replies(turns, chunks) && Carries(Carrier(e, limits), chunks, pieces, 0)
    ensures Download(e, input, turns, limits) == Finished(Whole(e, chunks[|chunks| - 1], Concat(pieces)))
    ensures HoldsAll(e, Download(e, input, turns, limits).chunk, chunks[|chunks| - 1], Concat(pieces))
  {
    ConsumerMatchesCarrier(e, limits);
    chunks, pieces := TransferIsWhole(e, Consumer(e, limits), Carrier(e, limits), input, Buffer([], 0), turns);
    assert [] + Concat(pieces) == Concat(pieces);
  }

  /** What chunks carry within the limits is within them as a whole, and so is the reply that holds it encoded. */
  lemma WholeIsWithinLimits(e: Engine, chunks: seq<Chunk>, pieces: seq<seq<byte>>, limits: Limits)
    requires Reliable(e) && Carries(Carrier(e, limits), chunks, pieces, 0)
    ensures |Concat(pieces)| <= limits.decoded
    ensures |Whole(e, chunks[|chunks| - 1], Concat(pieces)).bytesBase64| + 4096 + |chunks[|chunks| - 1].reference| <=
            limits.envelope
  {
    CarriesWithin(e, limits, chunks, pieces, 0);
    assert Sized(e.encode(Concat(pieces)), |Concat(pieces)|);
  }

  lemma {:induction false} CarriesWithin(e: Engine, limits: Limits, chunks: seq<Chunk>, pieces: seq<seq<byte>>,
                                         from: nat)
    requires Carries(Carrier(e, limits), chunks, pieces, from)
    ensures FitsReply(from + |Concat(pieces)|, chunks[|chunks| - 1], limits)
    decreases |chunks|
  {
    if |chunks| > 1 {
      CarriesWithin(e, limits, chunks[1..], pieces[1..], from + |pieces[0]|);
    }
  }

  /** Conversely, however a byte string is cut into chunks, a download that is sent them within the limits and is
      granted its buffer returns the base64 of the whole, whatever would have come after. */
  lemma WholeDownloads(e: Engine, input: Input, turns: seq<Turn>, chunks: seq<Chunk>, pieces: seq<seq<byte>>,
                       limits: Limits)
    requires Reliable(e) && Replies(turns, chunks) && Carries(Carrier(e, limits), chunks, pieces, 0)
    requires forall i :: 0 <= i < |chunks| ==> turns[i].allocates
    ensures Download(e, input, turns, limits) == Finished(Whole(e, chunks[|chunks| - 1], Concat(pieces)))
    ensures HoldsAll(e, Download(e, input, turns, limits).chunk, chunks[|chunks| - 1], Concat(pieces))
  {
    ConsumerMatchesCarrier(e, limits);
    WholeTransfers(e, Consumer(e, limits), Carrier(e, limits), input, Buffer([], 0), turns, chunks, pieces);
    assert [] + Concat(pieces) == Concat(pieces);
  }

  // ---- downloads that do not finish ---------------------------------------------------------------

  /** Why a chunk is refused. One that decodes to `piece` is consumed if and only if it carries it and the buffer is
      there; a chunk out of place or undecodable is an internal error, and only size or memory is a response too
      large. */
  lemma RefusalsExactly(e: Engine, buffer: Buffer, chunk: Chunk, piece: seq<byte>, limits: Limits, allocates: bool)
    requires Reliable(e) && e.decode(chunk.bytesBase64) == Some(piece)
    ensures var total := |buffer.bytes| + |piece|;
            var result := Absorb(e, buffer, chunk, limits, allocates);
            && (result == Err(InternalError) <==> chunk.decodedOffset != |buffer.bytes|)
            && (result.Ok? <==> CarriesPiece(e, limits, chunk, piece, |buffer.bytes|)
                                && (allocates || total + 2 <= buffer.capacity))
            && (result.Ok? || result == Err(InternalError) || result == Err(ResponseTooLarge))
  {
    assert Sized(e.encode(piece), |piece|);
    TooLargeExactly(|buffer.bytes| + |piece|, chunk, limits);
  }

  lemma UndecodableIsRefused(e: Engine, buffer: Buffer, chunk: Chunk, limits: Limits)
    requires e.decode(chunk.bytesBase64).None?
    ensures FitsReply(|buffer.bytes| + DecodedSize(chunk.bytesBase64), chunk, limits)
            ==> Absorb(e, buffer, chunk, limits, true) == Err(InternalError)
    ensures Absorb(e, buffer, chunk, limits, true).Err?
  {
    TooLargeExactly(|buffer.bytes| + DecodedSize(chunk.bytesBase64), chunk, limits);
  }

  /** The chunks carry the pieces one after the other, and all of them are continued. */
  predicate Partway(carry: Carry, chunks: seq<Chunk>, pieces: seq<seq<byte>>, from: nat)
    decreases |chunks|
  {
    && |chunks| == |pieces|
    && (chunks != [] ==>
          && carry(chunks[0], pieces[0], from)
          && chunks[0].progress.Continue?
          && Partway(carry, chunks[1..], pieces[1..], from + |pieces[0]|))
  }

  /** What is asked for after these chunks: the continuation that the last one names. */
  function Asked(input: Input, chunks: seq<Chunk>): Input {
    if chunks != [] && chunks[|chunks| - 1].progress.Continue? then Resume(chunks[|chunks| - 1].progress.token)
    else input
  }

  lemma {:induction false} TransferGoesOn(e: Engine, consume: Consume, carry: Carry, input: Input, buffer: Buffer,
                                          turns: seq<Turn>, chunks: seq<Chunk>, pieces: seq<seq<byte>>)
    returns (next: Buffer)
    requires AllCarried(consume, carry) && Replies(turns, chunks) && Partway(carry, chunks, pieces, |buffer.bytes|)
    requires forall i :: 0 <= i < |chunks| ==> turns[i].allocates
    ensures next.bytes == buffer.bytes + Concat(pieces)
    ensures Transfer(e, consume, input, buffer, turns)
            == Transfer(e, consume, Asked(input, chunks), next, turns[|chunks|..])
    decreases |chunks|
  {
    if chunks == [] {
      next := buffer;
      assert buffer.bytes + [] == buffer.bytes && turns[0..] == turns;
    } else {
      var chunk := chunks[0];
      assert turns[0].reply == Attachment(chunk) && turns[0].allocates;
      var absorbed := consume(buffer, chunk, true).value;
      var resumed := Resume(chunk.progress.token);
      next := TransferGoesOn(e, consume, carry, resumed, absorbed, turns[1..], chunks[1..], pieces[1..]);
      assert buffer.bytes + Concat(pieces) == absorbed.bytes + Concat(pieces[1..]);
      assert turns[1..][|chunks| - 1..] == turns[|chunks|..];
      PartwayContinues(carry, chunks, pieces, |buffer.bytes|);
      assert |chunks| > 1 ==> chunks[1..][|chunks| - 2] == chunks[|chunks| - 1];
    }
  }

  lemma {:induction false} PartwayContinues(carry: Carry, chunks: seq<Chunk>, pieces: seq<seq<byte>>, from: nat)
    requires Partway(carry, chunks, pieces, from)
    ensures forall i :: 0 <= i < |chunks| ==> chunks[i].progress.Continue?
    decreases |chunks|
  {
    if chunks != [] {
      PartwayContinues(carry, chunks[1..], pieces[1..], from + |pieces[0]|);
      assert forall i :: 1 <= i < |chunks| ==> chunks[i] == chunks[1..][i - 1];
    }
  }

  /** An error is passed on; a reply of another kind or out of place is an internal error; and a piece that would take
      the bytes past the limits is a response too large. */
  ghost predicate EndsAs(e: Engine, limits: Limits, outcome: Outcome, reply: Reply, total: nat) {
    match reply
    case Failure(error) => outcome == Failed(error)
    case Other => outcome == Failed(InternalError)
    case Attachment(chunk) =>
      && (chunk.decodedOffset != total ==> outcome == Failed(InternalError))
      && (chunk.decodedOffset == total && Exceeds(e, limits, chunk, total) ==> outcome == Failed(ResponseTooLarge))
  }

  predicate Exceeds(e: Engine, limits: Limits, chunk: Chunk, total: nat) {
    var piece := e.decode(chunk.bytesBase64);
    piece.Some? && !FitsReply(total + |piece.value|, chunk, limits)
  }

  lemma LastReply(e: Engine, limits: Limits, input: Input, buffer: Buffer, turns: seq<Turn>)
    requires Reliable(e) && turns != []
    ensures EndsAs(e, limits, Transfer(e, Consumer(e, limits), input, buffer, turns), turns[0].reply, |buffer.bytes|)
  {
    if turns[0].reply.Attachment? {
      var chunk, allocates := turns[0].reply.chunk, turns[0].allocates;
      var absorbed := Absorb(e, buffer, chunk, limits, allocates);
      assert Consumer(e, limits)(buffer, chunk, allocates) == absorbed;
      if e.decode(chunk.bytesBase64).Some? {
        RefusalsExactly(e, buffer, chunk, e.decode(chunk.bytesBase64).value, limits, allocates);
      }
    }
  }

  /** After continued chunks in order the download asks for what the last one names, and the next reply can end it in
      these ways. */
  lemma UnfinishedDownloads(e: Engine, input: Input, turns: seq<Turn>, chunks: seq<Chunk>, pieces: seq<seq<byte>>,
                            limits: Limits)
    requires Reliable(e) && Replies(turns, chunks) && Partway(Carrier(e, limits), chunks, pieces, 0)
    requires forall i :: 0 <= i < |chunks| ==> turns[i].allocates
    ensures |turns| == |chunks| ==> Download(e, input, turns, limits) == Waiting(Asked(input, chunks))
    ensures |turns| > |chunks| ==>
              EndsAs(e, limits, Download(e, input, turns, limits), turns[|chunks|].reply, |Concat(pieces)|)
  {
    ConsumerMatchesCarrier(e, limits);
    var consume := Consumer(e, limits);
    var next := TransferGoesOn(e, consume, Carrier(e, limits), input, Buffer([], 0), turns, chunks, pieces);
    assert next.bytes == Concat(pieces);
    if |turns| > |chunks| {
      LastReply(e, limits, Asked(input, chunks), next, turns[|chunks|..]);
    }
  }
}
