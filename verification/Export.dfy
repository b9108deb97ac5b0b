/** Writing an attachment to a native file chunk by chunk: `ExportWriter` of `src/export.rs`. The file is the bytes that
    reached it, and what the operating system answers is an argument of each call. */
module Export {
  import opened Wrappers
  import opened Base64
  import Download

  datatype Error = ExportFailed | AttachmentTooLarge | Native(code: nat)

  datatype Place = Place(path: string, filesystem: string)

  datatype Receipt = Receipt(place: Place, total: nat, sha256: string)

  /** Publishing gives a place or an error; one that fails may have unlinked the partial file already. */
  datatype Publication = Published(place: Place) | NotPublished(error: Error, unlinked: bool)

  /** Cleaning up unlinks the partial file; one that reports an error may still have done so. */
  datatype Cleanup = Clean | Unclean(error: Error, unlinked: bool) {
    predicate Unlinks() { Clean? || unlinked }
  }

  /** How the file answers one call: a write that fails may have stored some of its bytes. */
  datatype Io = Io(write: Option<nat>, publish: Publication, abort: Cleanup)

  datatype Call = Call(chunk: Download.Chunk, io: Io)

  type Outcome = Result<Option<Receipt>, Error>

  /** The base64 engine and the digest, in hexadecimal. */
  datatype Tools = Tools(engine: Engine, hash: seq<byte> -> string)

  /** `file` is the bytes that reached the file, `partial` says that it still has its temporary name, and `published`
      that its publication has been confirmed. */
  datatype Writer = Writer(active: bool, maximum: nat, written: nat, digested: seq<byte>, reference: Option<string>,
                           file: seq<byte>, partial: bool, published: bool)

  const U64 := 0x1_0000_0000_0000_0000

  // ---- one chunk ----------------------------------------------------------------------------------

  /** The bytes of a chunk that continues what was written, or why it is refused. */
  function Check(e: Engine, w: Writer, chunk: Download.Chunk): Result<seq<byte>, Error> {
    if !w.active || chunk.decodedOffset != w.written then Err(ExportFailed)
    else if w.reference.Some? && w.reference.value != chunk.reference then Err(ExportFailed)
    else if |chunk.bytesBase64| > Download.EncodedSize(w.maximum) then Err(ExportFailed)
    else match e.decode(chunk.bytesBase64)
      case None => Err(ExportFailed)
      case Some(piece) =>
        if w.written + |piece| >= U64 then Err(ExportFailed)
        else if w.written + |piece| > w.maximum then Err(AttachmentTooLarge)
        else if piece == [] && chunk.progress.Continue? then Err(ExportFailed)
        else Ok(piece)
  }

  function Stored(w: Writer, chunk: Download.Chunk, piece: seq<byte>): Writer {
    w.(file := w.file + piece, digested := w.digested + piece, written := w.written + |piece|,
       reference := Some(chunk.reference))
  }

  function Finish(hash: seq<byte> -> string, w: Writer, total: nat, sha256: string, io: Io): (Writer, Outcome) {
    var reset := w.(digested := []);
    if total != w.written || sha256 != hash(w.digested) then (reset, Err(ExportFailed))
    else match io.publish
      case NotPublished(error, unlinked) => (reset.(partial := w.partial && !unlinked), Err(error))
      case Published(place) =>
        (reset.(active := false, partial := false, published := true),
         Ok(Some(Receipt(place, w.written, hash(w.digested)))))
  }

  function Written(tools: Tools, w: Writer, call: Call): (Writer, Outcome) {
    match Check(tools.engine, w, call.chunk)
    case Err(error) => (w, Err(error))
    case Ok(piece) =>
      match call.io.write
      case Some(n) => (w.(file := w.file + piece[..Min(n, |piece|)]), Err(ExportFailed))
      case None =>
        match call.chunk.progress
        case Continue(_) => (Stored(w, call.chunk, piece), Ok(None))
        case Complete(total, sha256) => Finish(tools.hash, Stored(w, call.chunk, piece), total, sha256, call.io)
  }

  /** An error ends the export: the writer goes inactive, and a failed clean-up is reported instead. */
  function Consumed(tools: Tools, w: Writer, call: Call): (Writer, Outcome) {
    var (next, outcome) := Written(tools, w, call);
    match outcome
    case Ok(_) => (next, outcome)
    case Err(_) =>
      (next.(active := false, partial := next.partial && !call.io.abort.Unlinks()),
       if call.io.abort.Unclean? then Err(call.io.abort.error) else outcome)
  }

  function Created(maximum: nat): Writer {
    Writer(true, maximum, 0, [], None, [], true, false)
  }

  class ExportWriter {
    const tools: Tools
    const maximum: nat
    var active: bool
    var written: nat
    var digested: seq<byte>
    var reference: Option<string>
    var buffer: seq<byte>
    var file: seq<byte>
    var partial: bool
    var published: bool

    constructor (tools: Tools, maximum: nat)
      ensures View() == Created(maximum) && this.tools == tools
    {
      this.tools, this.maximum := tools, maximum;
      active, written, digested, reference, buffer := true, 0, [], None, [];
      file, partial, published := [], true, false;
    }

    ghost function View(): Writer
      reads this
    {
      Writer(active, maximum, written, digested, reference, file, partial, published)
    }

    method WriteChunk(chunk: Download.Chunk, io: Io) returns (outcome: Outcome)
      modifies this
      ensures (View(), outcome) == Consumed(tools, old(View()), Call(chunk, io))
    {
      outcome := Write(chunk, io);
      if outcome.Err? {
        var cleanup := Abort(io.abort);
        if cleanup.Err? {
          outcome := Err(cleanup.error);
        }
      }
    }

    method Abort(abort: Cleanup) returns (result: Result<(), Error>)
      modifies this
      ensures View() == old(View()).(active := false, partial := old(partial) && !abort.Unlinks())
      ensures result == if abort.Clean? then Ok(()) else Err(abort.error)
    {
      active := false;
      if abort.Clean? || abort.unlinked {
        partial := false;
      }
      return if abort.Clean? then Ok(()) else Err(abort.error);
    }

    method Write(chunk: Download.Chunk, io: Io) returns (outcome: Outcome)
      modifies this
      ensures (View(), outcome) == Written(tools, old(View()), Call(chunk, io))
    {
      if !active || chunk.decodedOffset != written {
        return Err(ExportFailed);
      }
      if reference.Some? && reference.value != chunk.reference {
        return Err(ExportFailed);
      }
      if |chunk.bytesBase64| > Download.EncodedSize(maximum) {
        return Err(ExportFailed);
      }
      var decoded := tools.engine.decode(chunk.bytesBase64);
      if decoded.None? {
        return Err(ExportFailed);
      }
      buffer := decoded.value;
      var total := written + |buffer|;
      if total >= U64 {
        return Err(ExportFailed);
      }
      if total > maximum {
        return Err(AttachmentTooLarge);
      }
      if buffer == [] && chunk.progress.Continue? {
        return Err(ExportFailed);
      }
      if io.write.Some? {
        file := file + buffer[..Min(io.write.value, |buffer|)];
        return Err(ExportFailed);
      }
      file := file + buffer;
      digested := digested + buffer;
      written := total;
      if reference.None? {
        reference := Some(chunk.reference);
      }
      if chunk.progress.Continue? {
        return Ok(None);
      }
      outcome := Seal(chunk.progress.total, chunk.progress.sha256, io);
    }

    method Seal(total: nat, sha256: string, io: Io) returns (outcome: Outcome)
      modifies this
      ensures (View(), outcome) == Finish(tools.hash, old(View()), total, sha256, io)
    {
      var actual := tools.hash(digested);
      digested := [];
      if total != written || sha256 != actual {
        return Err(ExportFailed);
      }
      if io.publish.NotPublished? {
        partial := partial && !io.publish.unlinked;
        return Err(io.publish.error);
      }
      partial, published := false, true;
      active := false;
      return Ok(Some(Receipt(io.publish.place, written, actual)));
    }
  }

  // ---- a whole export -----------------------------------------------------------------------------

  function Run(tools: Tools, maximum: nat, calls: seq<Call>): Writer {
    if calls == [] then Created(maximum)
    else Consumed(tools, Run(tools, maximum, calls[..|calls| - 1]), calls[|calls| - 1]).0
  }

  function OutcomeOf(tools: Tools, maximum: nat, calls: seq<Call>): Outcome
    requires calls != []
  {
    Consumed(tools, Run(tools, maximum, calls[..|calls| - 1]), calls[|calls| - 1]).1
  }

  /** What the chunks decode to, one after the other. */
  function Decoded(e: Engine, calls: seq<Call>): seq<byte> {
    if calls == [] then []
    else Decoded(e, calls[..|calls| - 1]) + Piece(e, calls[|calls| - 1])
  }

  function Piece(e: Engine, call: Call): seq<byte> {
    match e.decode(call.chunk.bytesBase64)
    case None => []
    case Some(piece) => piece
  }

  /** Each chunk decodes and starts where the ones before it end, all from one attachment. */
  predicate Contiguous(e: Engine, calls: seq<Call>) {
    calls == [] ||
    var last := calls[|calls| - 1];
    && Contiguous(e, calls[..|calls| - 1])
    && e.decode(last.chunk.bytesBase64).Some?
    && last.chunk.decodedOffset == |Decoded(e, calls[..|calls| - 1])|
    && last.chunk.reference == calls[0].chunk.reference
  }

  /** No chunk is marked as the last, and none of them is empty. */
  predicate AllContinue(e: Engine, calls: seq<Call>) {
    forall call :: call in calls ==> call.chunk.progress.Continue? && Piece(e, call) != []
  }

  /** While the writer is active the file, the digest and the count agree with what the chunks so far decode to. */
  ghost predicate InStep(e: Engine, w: Writer, calls: seq<Call>) {
    w.active ==>
      && w.file == w.digested == Decoded(e, calls)
      && w.written == |w.file| <= w.maximum
      && Contiguous(e, calls) && AllContinue(e, calls) && w.partial && !w.published
      && w.reference == if calls == [] then None else Some(calls[0].chunk.reference)
  }

  lemma WriteKeepsInStep(tools: Tools, w: Writer, before: seq<Call>, call: Call)
    requires InStep(tools.engine, w, before)
    ensures InStep(tools.engine, Consumed(tools, w, call).0, before + [call])
  {
    var calls := before + [call];
    assert calls[..|calls| - 1] == before;
  }

  lemma {:induction false} RunStaysInStep(tools: Tools, maximum: nat, calls: seq<Call>)
    ensures InStep(tools.engine, Run(tools, maximum, calls), calls)
    ensures Run(tools, maximum, calls).maximum == maximum
  {
    if calls != [] {
      var before, last := calls[..|calls| - 1], calls[|calls| - 1];
      RunStaysInStep(tools, maximum, before);
      WriteKeepsInStep(tools, Run(tools, maximum, before), before, last);
      assert before + [last] == calls;
    }
  }

  lemma ReceiptSeals(tools: Tools, w: Writer, call: Call)
    requires Consumed(tools, w, call).1.Ok? && Consumed(tools, w, call).1.value.Some?
    ensures w.active && Check(tools.engine, w, call.chunk) == Ok(Piece(tools.engine, call))
    ensures var stored := Stored(w, call.chunk, Piece(tools.engine, call));
            var receipt := Consumed(tools, w, call).1.value.value;
            && Consumed(tools, w, call).0.file == stored.file
            && Consumed(tools, w, call).0.published && !Consumed(tools, w, call).0.partial
            && receipt.total == stored.written && receipt.sha256 == tools.hash(stored.digested)
            && call.chunk.progress == Download.Complete(receipt.total, receipt.sha256)
  {
  }

  /** A receipt is given only when the bytes in the file are everything the chunks decode to, with the size and the
      digest that the last chunk claims and the receipt repeats. */
  lemma ReceiptIsWhole(tools: Tools, maximum: nat, calls: seq<Call>)
    requires calls != [] && OutcomeOf(tools, maximum, calls).Ok? && OutcomeOf(tools, maximum, calls).value.Some?
    ensures var receipt := OutcomeOf(tools, maximum, calls).value.value;
            var last := calls[|calls| - 1].chunk;
            && Run(tools, maximum, calls).file == Decoded(tools.engine, calls)
            && Run(tools, maximum, calls).published && !Run(tools, maximum, calls).partial
            && Contiguous(tools.engine, calls) && AllContinue(tools.engine, calls[..|calls| - 1])
            && receipt.total == |Decoded(tools.engine, calls)| <= maximum
            && receipt.sha256 == tools.hash(Decoded(tools.engine, calls))
            && last.progress == Download.Complete(receipt.total, receipt.sha256)
  {
    var before := calls[..|calls| - 1];
    RunStaysInStep(tools, maximum, before);
    ReceiptSeals(tools, Run(tools, maximum, before), calls[|calls| - 1]);
  }

  /** What an inactive writer still does: it refuses, and at most unlinks the partial file. */
  lemma InactiveRefuses(tools: Tools, w: Writer, call: Call)
    requires !w.active
    ensures Consumed(tools, w, call).1.Err?
    ensures Consumed(tools, w, call).0 == w.(partial := w.partial && !call.io.abort.Unlinks())
  {
  }

  lemma EndsInactive(tools: Tools, w: Writer, call: Call)
    ensures Consumed(tools, w, call).1 == Ok(None) || !Consumed(tools, w, call).0.active
  {
  }

  /** Once a call has failed or has given a receipt, every later call fails and no byte reaches the file any more; what
      was published stays so, and what was unlinked does not come back. */
  lemma {:induction false} NothingAfter(tools: Tools, maximum: nat, calls: seq<Call>, later: seq<Call>)
    requires calls != [] && OutcomeOf(tools, maximum, calls) != Ok(None)
    ensures !Run(tools, maximum, calls + later).active
    ensures Run(tools, maximum, calls + later).file == Run(tools, maximum, calls).file
    ensures Run(tools, maximum, calls + later).published == Run(tools, maximum, calls).published
    ensures Run(tools, maximum, calls + later).partial ==> Run(tools, maximum, calls).partial
    ensures later != [] ==> OutcomeOf(tools, maximum, calls + later).Err?
    decreases |later|
  {
    var all := calls + later;
    if later == [] {
      assert all == calls;
      EndsInactive(tools, Run(tools, maximum, calls[..|calls| - 1]), calls[|calls| - 1]);
    } else {
      var before, last := later[..|later| - 1], later[|later| - 1];
      assert all[..|all| - 1] == calls + before && all[|all| - 1] == last;
      NothingAfter(tools, maximum, calls, before);
      InactiveRefuses(tools, Run(tools, maximum, calls + before), last);
    }
  }

  /** A call that fails and cleans up leaves nothing under the temporary name. */
  lemma FailureLeavesNoPartial(tools: Tools, maximum: nat, calls: seq<Call>)
    requires calls != [] && OutcomeOf(tools, maximum, calls).Err? && calls[|calls| - 1].io.abort.Clean?
    ensures !Run(tools, maximum, calls).partial
  {
  }

  /** A publication is confirmed only by a call that gave the receipt for it. */
  lemma {:induction false} PublishedByReceipt(tools: Tools, maximum: nat, calls: seq<Call>) returns (n: nat)
    requires Run(tools, maximum, calls).published
    ensures 0 < n <= |calls| && OutcomeOf(tools, maximum, calls[..n]).Ok?
    ensures OutcomeOf(tools, maximum, calls[..n]).value.Some?
    decreases |calls|
  {
    var before := calls[..|calls| - 1];
    if Run(tools, maximum, before).published {
      n := PublishedByReceipt(tools, maximum, before);
      assert calls[..n] == before[..n];
    } else {
      n := |calls|;
      assert calls[..n] == calls;
    }
  }

  /** What a failed call answers: the error of a clean-up that fails, and otherwise a failed export, an attachment past
      its maximum or what the publication reports. */
  lemma FailuresAreReported(tools: Tools, maximum: nat, calls: seq<Call>)
    requires calls != [] && OutcomeOf(tools, maximum, calls).Err?
    ensures var io, error := calls[|calls| - 1].io, OutcomeOf(tools, maximum, calls).error;
            if io.abort.Unclean? then error == io.abort.error
            else || error == ExportFailed || error == AttachmentTooLarge
                 || (io.publish.NotPublished? && error == io.publish.error)
  {
  }

  // ---- every chunking -----------------------------------------------------------------------------

  /** What a chunk in the middle must bring for the export to go on. */
  predicate Middle(e: Engine, call: Call) {
    call.chunk.progress.Continue? && call.io.write.None? && Piece(e, call) != []
  }

  lemma PieceFits(e: Engine, piece: seq<byte>, text: string, maximum: nat)
    requires Download.Reliable(e) && e.decode(text) == Some(piece) && |piece| <= maximum
    ensures |text| <= Download.EncodedSize(maximum)
  {
    assert Download.Sized(e.encode(piece), |piece|);
    assert Download.EncodedSize(|piece|) <= Download.EncodedSize(maximum);
  }

  lemma CheckPasses(e: Engine, w: Writer, calls: seq<Call>)
    requires Download.Reliable(e) && w.maximum < U64 && calls != []
    requires w.active && InStep(e, w, calls[..|calls| - 1])
    requires Contiguous(e, calls) && |Decoded(e, calls)| <= w.maximum
    requires calls[|calls| - 1].chunk.progress.Complete? || Piece(e, calls[|calls| - 1]) != []
    ensures Check(e, w, calls[|calls| - 1].chunk) == Ok(Piece(e, calls[|calls| - 1]))
  {
    var last := calls[|calls| - 1];
    PieceFits(e, Piece(e, last), last.chunk.bytesBase64, w.maximum);
  }

  lemma {:induction false} MiddleGoesOn(tools: Tools, maximum: nat, calls: seq<Call>)
    requires Download.Reliable(tools.engine) && maximum < U64
    requires Contiguous(tools.engine, calls) && |Decoded(tools.engine, calls)| <= maximum
    requires forall call :: call in calls ==> Middle(tools.engine, call)
    ensures Run(tools, maximum, calls).active
  {
    if calls != [] {
      var before, last := calls[..|calls| - 1], calls[|calls| - 1];
      MiddleGoesOn(tools, maximum, before);
      RunStaysInStep(tools, maximum, before);
      assert Middle(tools.engine, last);
      CheckPasses(tools.engine, Run(tools, maximum, before), calls);
    }
  }

  /** The last chunk is checked against a writer in step with the ones before it. */
  lemma LastPasses(tools: Tools, maximum: nat, calls: seq<Call>)
    requires Download.Reliable(tools.engine) && maximum < U64 && calls != []
    requires Contiguous(tools.engine, calls) && |Decoded(tools.engine, calls)| <= maximum
    requires forall call :: call in calls[..|calls| - 1] ==> Middle(tools.engine, call)
    requires calls[|calls| - 1].chunk.progress.Complete?
    ensures var w, last := Run(tools, maximum, calls[..|calls| - 1]), calls[|calls| - 1];
            && Check(tools.engine, w, last.chunk) == Ok(Piece(tools.engine, last))
            && Stored(w, last.chunk, Piece(tools.engine, last)).digested == Decoded(tools.engine, calls)
            && Stored(w, last.chunk, Piece(tools.engine, last)).written == |Decoded(tools.engine, calls)|
  {
    var before, last := calls[..|calls| - 1], calls[|calls| - 1];
    MiddleGoesOn(tools, maximum, before);
    RunStaysInStep(tools, maximum, before);
    CheckPasses(tools.engine, Run(tools, maximum, before), calls);
  }

  /** Conversely, however a byte string within the maximum is cut into non-empty chunks, an export whose file accepts
      every write gives a receipt when the last chunk claims the right size and digest. */
  lemma WholeExports(tools: Tools, maximum: nat, calls: seq<Call>)
    requires Download.Reliable(tools.engine) && maximum < U64 && calls != []
    requires Contiguous(tools.engine, calls) && |Decoded(tools.engine, calls)| <= maximum
    requires forall call :: call in calls[..|calls| - 1] ==> Middle(tools.engine, call)
    requires var last := calls[|calls| - 1];
             && last.io.write.None? && last.io.publish.Published?
             && last.chunk.progress == Download.Complete(|Decoded(tools.engine, calls)|,
                                                         tools.hash(Decoded(tools.engine, calls)))
    ensures OutcomeOf(tools, maximum, calls) ==
            Ok(Some(Receipt(calls[|calls| - 1].io.publish.place, |Decoded(tools.engine, calls)|,
                            tools.hash(Decoded(tools.engine, calls)))))
  {
    LastPasses(tools, maximum, calls);
  }

  /** A chunk in its place that would take the file past the maximum is named as such, unless the count overflows 64
      bits, and nothing of it is written. */
  lemma OversizedIsNamed(tools: Tools, maximum: nat, calls: seq<Call>)
    requires Download.Reliable(tools.engine) && calls != [] && Run(tools, maximum, calls[..|calls| - 1]).active
    requires Contiguous(tools.engine, calls) && maximum < |Decoded(tools.engine, calls)|
    requires |Piece(tools.engine, calls[|calls| - 1])| <= maximum
    requires calls[|calls| - 1].io.abort.Clean?
    ensures OutcomeOf(tools, maximum, calls) ==
            Err(if |Decoded(tools.engine, calls)| < 0x1_0000_0000_0000_0000 then AttachmentTooLarge else ExportFailed)
    ensures Run(tools, maximum, calls).file == Decoded(tools.engine, calls[..|calls| - 1])
  {
    var before, last := calls[..|calls| - 1], calls[|calls| - 1];
    RunStaysInStep(tools, maximum, before);
    PieceFits(tools.engine, Piece(tools.engine, last), last.chunk.bytesBase64, maximum);
  }

  /** A whole whose size or digest is not what the last chunk claims fails, and one that the platform does not publish
      fails with the platform's error. */
  lemma UnsealedFails(tools: Tools, maximum: nat, calls: seq<Call>)
    requires Download.Reliable(tools.engine) && maximum < U64 && calls != []
    requires Contiguous(tools.engine, calls) && |Decoded(tools.engine, calls)| <= maximum
    requires forall call :: call in calls[..|calls| - 1] ==> Middle(tools.engine, call)
    requires var last := calls[|calls| - 1];
             last.io.write.None? && last.io.abort.Clean? && last.chunk.progress.Complete?
    ensures var last, whole := calls[|calls| - 1], Decoded(tools.engine, calls);
            && (last.chunk.progress != Download.Complete(|whole|, tools.hash(whole)) ==>
                  OutcomeOf(tools, maximum, calls) == Err(ExportFailed))
            && (last.chunk.progress == Download.Complete(|whole|, tools.hash(whole)) ==>
                  last.io.publish.NotPublished? ==> OutcomeOf(tools, maximum, calls) == Err(last.io.publish.error))
  {
    LastPasses(tools, maximum, calls);
  }

  /** A publication that fails after it has unlinked the temporary name leaves nothing there, whatever the clean-up. */
  lemma UnlinkedIsGone(tools: Tools, maximum: nat, calls: seq<Call>)
    requires Download.Reliable(tools.engine) && maximum < U64 && calls != []
    requires Contiguous(tools.engine, calls) && |Decoded(tools.engine, calls)| <= maximum
    requires forall call :: call in calls[..|calls| - 1] ==> Middle(tools.engine, call)
    requires var last := calls[|calls| - 1];
             && last.io.write.None? && last.io.publish.NotPublished? && last.io.publish.unlinked
             && last.chunk.progress == Download.Complete(|Decoded(tools.engine, calls)|,
                                                         tools.hash(Decoded(tools.engine, calls)))
    ensures !Run(tools, maximum, calls).partial
  {
    LastPasses(tools, maximum, calls);
  }
}
