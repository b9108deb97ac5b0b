# Verified model of mailctl's coordination, journal and codec cores

This project models the parts of mailctl in which a small mistake would lose a wake-up, append a draft twice, skip a
message or hand a terminal a control sequence, and proves what those parts are for. Each module follows one component
of the repository. Code that changes state in place is a class or a looping method proved against a specification
function; the concurrent parts are transition systems with one step per critical section, and their theorems are
invariants over every interleaving.

| module | component |
|---|---|
| `Gate` | the FIFO admission gate with one active limit per waiter, its guards and its stored notifications |
| `Pool` | the idle connections of an account, behind a lock of their own, over the gate |
| `Flight` | shared credential look-ups that can be joined, abandoned and replaced |
| `Workers` | those flights over the worker gate they queue in |
| `Journal` | the draft journal: rows, preparation, dispatch, outcomes, re-encoding and verification |
| `Base64`, `MailboxName` | modified UTF-7 mailbox names and the base64 below them |
| `TransportBounds`, `Transport` | the MCP session's byte budget, and its request admission between awaits |
| `Paging` | descending-UID search pages over a mailbox that changes |
| `JsonScan` | the scan that bounds JSON nesting and nodes before decoding |
| `Download`, `Export` | attachment reassembly, in memory and into a file |
| `Presentation` | the filter for message bodies shown on a terminal |
| `Scope` | mailbox scopes, their matcher and their intersection |
| `History` | the walk that drops reverted commits from release notes |

`dafny verify dfyconfig.toml` checks everything.

Reading guide: in each transition system `Step` lists the critical sections, `Enabled` says when one can run, `Next`
what it does, and `Inv` is the invariant. `Gate.NoLostWakeup`, `Pool.Inv`, `Flight.NoLostAbandonment`,
`Journal.Recorded` and `Transport.Fates` are the places where the obvious invariant is not inductive and the real one
is stated. What one operation does is pinned by the lemmas whose names end in `Exactly`: they say for all inputs when
each branch is taken and what the new state is, in terms of the inputs alone.

Four properties that one would expect turn out to hold only conditionally. The code is modelled as it is; for each, a
lemma gives the exact condition over all inputs and another an input that fails.

- A reservation that queues keeps the gate sound if and only if the wrapping ticket counter has not come back to a live
  waiter (`Gate.QueuedIffFresh`). It can come back (`Gate.TicketsComeRound`), and then dropping one of the two guards
  strands the other (`Gate.TakenTicketStrands`).
- Idle plus active connections leave their limit exactly when they are at it and a guard is admitted or a connection is
  parked (`Pool.ActiveBoundExactly`, over runs `Pool.RunWithinExactly`). Both happen (`Pool.GrantOverruns`,
  `Pool.ActiveBoundFails`). Idle connections plus acquisitions past the truncation section never leave it.
- Preparing a draft keeps an accepted journal accepted if and only if an operation that will be inserted is well formed
  (`Journal.PrepareKeepsAccepted`, failing in `Journal.PrepareCanSpoil`).
- A commit survives if and only if no surviving later commit reverts it, exactly for the histories of
  `History.LawfulExactly`, and not for that of `History.ForwardBreaksTheLaw`.

## Model

| member | source | states |
|---|---|---|
| `Gate.GateState.ReserveSlot` | src/authentication.rs:288-310 | a newcomer takes a slot only past an empty queue and below its own limit; otherwise it queues under the next wrapping ticket or is refused when its pending bound is reached, and nothing else changes |
| `Gate.ReservationsExactly` | src/authentication.rs:288-310 | a reservation enters if and only if the queue is empty and `active` is below the limit it asks for; it is rate limited, and changes nothing, if and only if it cannot enter and the pending bound is reached; and otherwise it queues last, in an entry that carries the limit asked for |
| `Gate.QueueIsBounded` | src/authentication.rs:295-297 | over every interleaving the queue stays within the largest pending bound in use |
| `Gate.NotifiesExactly` | src/authentication.rs:272-346 | besides deliveries, only an admission from the queue and a drop notify, exactly when there is an eligible head after them, and it is that head they notify |
| `Gate.DeliveryIsKept` | src/authentication.rs:324-346 | a delivered notification completes the registered future or is stored for the next one |
| `Gate.GateState.TryAdmit` | src/authentication.rs:316-346 | a waiter enters only as the head and below its own limit; it leaves the queue, is counted, and the waiter to notify next is the new head if that is eligible |
| `Gate.GateState.DropAdmission` | src/authentication.rs:272-286 | dropping a queued guard removes its entry, dropping an admitted one frees its slot, and either names the head to notify if it became eligible |
| `Gate.RetainAt` | src/authentication.rs:275-276 | removing by ticket from a queue with distinct tickets takes out exactly the one entry and keeps the others in order |
| `Gate.StepKeepsInv` | src/authentication.rs:260-346 | every critical section, delivery, wake-up and cancellation keeps counting, FIFO order, queue membership and the absence of lost wake-ups, provided no live ticket is reused |
| `Gate.Reachable` | src/authentication.rs:260-346 | over every interleaving: `active` is the number of live admitted guards, the queue is the live waiting guards in ticket order, and an eligible head has its notification in flight, stored, or its check still to come |
| `Gate.HeadProceeds` | src/authentication.rs:316-346 | from every state with an eligible head there is a schedule of at most four steps, all of them deliveries to it and its own turns, that admits it |
| `Gate.HeadStaysEligible` | src/authentication.rs:316-346 | under any step of anyone, but its own admission and its own drop, an eligible head stays the eligible head; what it still has to do never grows, and each turn of its own shortens it |
| `Gate.HeadInEveryRun` | src/authentication.rs:316-346 | in every run in which it is not dropped, an eligible head has been admitted or is still the eligible head with as many turns used up as it has taken |
| `Gate.ThreeTurnsAdmit` | src/authentication.rs:324-346 | in every run, an eligible head that takes three turns of its own and is not dropped is admitted |
| `Gate.StepKeepsWithin` | src/authentication.rs:287-346 | while callers ask for no more than a bound, the number of admitted guards stays within it |
| `Gate.Quiescent` | src/authentication.rs:260-346 | when nothing is in flight and every waiter sleeps unsignalled, `active` has reached the limit that the head asked for |
| `Gate.ArrivalOrder` | src/authentication.rs:288-346 | once a later arrival is admitted, an earlier one is no longer waiting: it was admitted before or has been dropped |
| `Gate.OwnLimit` | src/authentication.rs:291-336 | each admission ends at or below the limit that the admitted guard asked for, and a newcomer is admitted directly only past an empty queue |
| `Gate.QueuedIffFresh` | src/authentication.rs:298-306 | a reservation that queues keeps the invariant if and only if the wrapping counter has not come back to the ticket of a live waiter |
| `Gate.TicketsComeRound` | src/authentication.rs:298-299 | some run in which every ticket was free reaches a state whose next reservation queues under the ticket of a live waiter |
| `Gate.TakenTicketStrands` | src/authentication.rs:275-276 | two waiting guards then share a ticket, and dropping either leaves the other waiting without an entry in the queue |
| `Pool.PoolState.Acquire` | src/authentication.rs:575-597 | the acquire section: sweep, take the last idle connection of the generation unless a new one is asked for, truncate to the spare capacity |
| `Pool.PoolState.Return` | src/authentication.rs:233-242 | a released connection is parked if and only if it is alive, unexpired and idle plus active is within its lease's capacity |
| `Pool.PoolState.ExpireIdle` | src/authentication.rs:154-158 | the expiry section: a loop over the idle list that keeps what outlasts the instant |
| `Pool.PoolState.EvictOwner` | src/authentication.rs:175-188 | the clean-up of a stopped owner: the same loop over what others own |
| `Pool.SweepKeepsOrder` | src/authentication.rs:155-157 | a sweep keeps exactly the connections that pass, at rising positions of the old list, so in their order |
| `Pool.TakeIsSound` | src/authentication.rs:575-597 | what is selected is live, of the right generation and not left behind; what stays idle was idle, is live and is at most the spare capacity; nothing is selected only if nothing fits or a new connection is asked for |
| `Pool.TakeKeepsWhatFits` | src/authentication.rs:575-597 | nothing live is dropped while it fits: what stays idle is as much as there is or as the spare capacity allows, and when all fits it is exactly the rest; what is selected is the last of its generation |
| `Pool.FoundExactly` | src/authentication.rs:577-581 | usable are exactly the idle connections whose owner lives, whose lease has not expired and whose lifetime is not used up |
| `Pool.ParkedIsReused` | src/authentication.rs:581-586 | the connection parked last is the one the next acquisition of its generation gets, while it is alive |
| `Pool.ReleasesExactly` | src/authentication.rs:233-242 | a release parks its connection last if and only if its owner is alive, it has not expired and idle plus active are within the capacity; otherwise it leaves, and nothing else changes |
| `Pool.SweepsExactly` | src/authentication.rs:154-188 | expiry keeps exactly what outlasts the instant and the clean-up of an owner exactly what others own, and neither touches anything else |
| `Pool.StepKeepsInv` | src/authentication.rs:233-243 | acquisition, release, disposal, expiry, eviction and every gate step keep idle plus acquired connections within the bound although `active` changes outside the pool lock |
| `Pool.RunKeepsInv` | src/authentication.rs:562-646 | the same over runs from any state that satisfies the invariant |
| `Pool.ConnectionBound` | src/authentication.rs:562-646 | over all interleavings of both locks, idle connections plus acquisitions past the truncation section, and the admitted guards, stay within the largest `account_connections` in use |
| `Pool.ActiveBoundExactly` | src/authentication.rs:233-243 | for every state and step, idle plus active leave their bound exactly when they are at it and the step admits a guard or parks a connection |
| `Pool.RunWithinExactly` | src/authentication.rs:562-646 | idle plus active are within the bound in every state of a run exactly when they are never raised at the bound |
| `Pool.AcquireRestoresLoad` | src/authentication.rs:582-596 | every acquisition section brings idle plus active back within the bound |
| `Pool.ActiveBoundFails` | src/authentication.rs:233-242 | a run in which a connection is parked beyond the limit, its own admission still counted |
| `Pool.GrantOverruns` | src/authentication.rs:291-293 | a run in which a guard is admitted beyond the limit while the idle list is full |
| `Flight.FlightState.JoinFlight` | src/authentication.rs:82-89 | joining adds one to the count of an open flight and fails on a closed one without change |
| `Flight.FlightState.AbandonFlight` | src/authentication.rs:91-97 | an open flight without waiters is closed, and the answer is whether it is closed now |
| `Flight.FlightState.DropWaiter` | src/authentication.rs:109-119 | a dropped waiter is taken off the count, and the last one leaves a notification |
| `Flight.StepKeepsInv` | src/authentication.rs:666-753 | every section of `work`, of the spawned task and of a dropped waiter keeps the counts, the single joinable flight per key, the at-most-one run and the delivery of abandonment |
| `Flight.SingleFlight` | src/authentication.rs:674-737 | in every reachable state a key has at most one unresolved joinable flight and at most one running source, and no flight's source runs twice |
| `Flight.WaitersAreKept` | src/authentication.rs:99-119 | a live waiter's flight is open, was not abandoned under it and counts exactly its live waiters, so the waiter can always be dropped |
| `Flight.ClosedStaysClosed` | src/authentication.rs:75-97 | an abandoned flight is never rejoined and its source never starts |
| `Flight.UnobservedGivesUp` | src/authentication.rs:698-713 | a queued flight without waiters gives up by at most two steps of its own |
| `Flight.LookupForgets` | src/authentication.rs:676-676 | a look-up forgets exactly the flights that are over and have no waiter left |
| `Flight.LookupJoins` | src/authentication.rs:678-684 | a caller whose key has an unresolved open flight joins it, counted as one waiter more, and starts no other |
| `Flight.LookupStarts` | src/authentication.rs:685-737 | a caller whose key has none starts one with itself as its only waiter, unless the worker gate refuses |
| `Flight.FlightRuns` | src/authentication.rs:698-733 | an admitted flight that somebody waits for runs its source and resolves by its own turns, and its deadline can resolve it before |
| `Flight.WokenOnce` | src/authentication.rs:99-107 | a wake-up uses up its notification: there is no further one until another waiter leaves |
| `Workers.StepKeepsInv` | src/authentication.rs:674-753 | every interleaving of callers, tasks, deadlines and the worker gate keeps flights and gate sound, and each task in step with its reservation |
| `Workers.WorkerBound` | src/authentication.rs:685-730 | over all interleavings at most `credential_workers` sources run at once |
| `Workers.SourceStartsAdmitted` | src/authentication.rs:711-717 | a source that starts holds its admission, so it is counted among the running ones |
| `Workers.AbandonedIsNeverAdmitted` | src/authentication.rs:700-703 | in every run an abandoned flight that was not admitted stays abandoned and is never admitted |
| `Workers.AbandonedLeavesQueue` | src/authentication.rs:700-703 | its drop is enabled until it has happened, and takes its reservation out of the gate's queue for good |
| `Workers.UnobservedLeavesQueue` | src/authentication.rs:99-119 | a flight that waits for a worker while nobody waits for it leaves the gate's queue by at most three steps of its own |
| `Workers.TaskGoesOn` | src/authentication.rs:698-733 | in every reachable state each task has a step of its own, through its select, its deadline, its source and giving its admission back |
| `Journal.DecodesExactly` | src/draft_journal.rs:817-864 | a stored row decodes to an operation and state if and only if it is what storing them writes |
| `Journal.ColumnsOf` | src/draft_journal.rs:817-864 | what stands in each column, with the six state names, and the message columns set exactly by the states that name a message |
| `Journal.DraftJournal.PrepareWithLimit` | src/draft_journal.rs:372-419 | an identity is inserted once as prepared within the limit, repeated with the same operation it returns what is stored, and with another it conflicts and changes nothing |
| `Journal.DraftJournal.ReencodePrepared` | src/draft_journal.rs:424-481 | only a prepared row with the expected operation, valid facts and an older encoder gets the new content and the current encoder |
| `Journal.DraftJournal.BeginDispatch` | src/draft_journal.rs:485-522 | only a prepared row with the same operation becomes in-flight, and it is returned as stored |
| `Journal.DraftJournal.RecordOutcome` | src/draft_journal.rs:570-632 | an outcome is written only over in-flight, or a duplicate over an unknown outcome |
| `Journal.VerifyRows` | src/draft_journal.rs:309-348 | a journal is accepted if and only if it is within its size and time and every row decodes, has a valid encoder and the fingerprint of its facts, and if prepared can be dispatched; otherwise the error is that of the first row at which it stops |
| `Journal.AcceptsExactly` | src/draft_journal.rs:328-345 | a row is accepted if and only if it decodes, facts that it has name their encoder in at most 128 visible ASCII characters and carry their own fingerprint, and while it is prepared it has them with a UID validity and a selected sender |
| `Journal.StepMovesRow` | src/draft_journal.rs:424-481 | whatever one step of any connection does, a stored row keeps its identity, mailbox and frozen facts and its state moves at most one place along prepared, in-flight, outcome, duplicate |
| `Journal.StepKeepsInv` | src/draft_journal.rs:485-522 | the log of dispatches and re-encodings never repeats and always agrees with the rows, although reads and guarded updates of several connections interleave and any of them can crash in between |
| `Journal.AtMostOnce` | src/draft_journal.rs:485-522 | over every run of any number of connections with crashes, from any rows, an identity is dispatched at most once and re-encoded at most once |
| `Journal.LifecycleCompletes` | src/draft_journal.rs:372-632 | the guards turn nothing down that is in order: a new operation in a journal with room can be prepared, dispatched and given any first outcome, and its row then reads as exactly that |
| `Journal.PreparesExactly` | src/draft_journal.rs:372-419 | a stored identity gives what is stored if and only if its operation is the one prepared, and a conflict if and only if it is another; a new one is full if and only if the rows have reached the maximum, and is otherwise added as prepared with nothing else changed |
| `Journal.UnaddressableIsRefused` | src/draft_journal.rs:376-381 | an invalid mailbox or a generation out of range is refused without change |
| `Journal.ReencodesExactly` | src/draft_journal.rs:424-481 | a re-encoding goes through if and only if the row holds the expected operation as prepared and its facts are valid and of an older encoder; each refusal has its own condition and changes nothing |
| `Journal.ReencodedIs` | src/draft_journal.rs:453-480 | what is then stored is the expected operation with the new content and the current encoder, and every other row is as it was |
| `Journal.DispatchesExactly` | src/draft_journal.rs:485-522 | a dispatch is allowed if and only if the row holds that operation as prepared; each refusal has its own condition |
| `Journal.OutcomesExactly` | src/draft_journal.rs:570-632 | an outcome is allowed if and only if the row is in flight, and a duplicate if and only if its outcome is unknown |
| `Journal.FingerprintCovers` | src/draft_journal.rs:115-137 | two operations have the same fingerprinted facts if and only if they agree in everything but content, encoder and the fingerprint itself |
| `Journal.NeverDispatchedAgain` | src/draft_journal.rs:485-522 | once a row has left prepared, an uncertain outcome included, no later step dispatches it |
| `Journal.RunMovesRow` | src/draft_journal.rs:424-481 | over any run the frozen facts of a row never change, content and encoder change at most once and only while prepared, and states only move forward |
| `Journal.PrepareKeepsAccepted` | src/draft_journal.rs:372-419 | an accepted journal stays accepted after a preparation if and only if an operation that passes the guards of the insertion is well formed |
| `Journal.PrepareCanSpoil` | src/draft_journal.rs:337-345 | an operation without frozen facts is prepared in an empty journal, which verification then refuses |
| `Journal.ReencodeKeepsAccepted` | src/draft_journal.rs:424-481 | re-encoding keeps an accepted journal accepted, and what it returns is what is then read back |
| `Journal.WriteKeepsAccepted` | src/draft_journal.rs:570-632 | dispatches and outcomes keep an accepted journal accepted |
| `Journal.RunKeepsAccepted` | src/draft_journal.rs:309-348 | a journal accepted once stays accepted over every run in which only well-formed operations are prepared |
| `Base64.DecodesExactly` | src/imap.rs:419-420 | the strict unpadded decoder accepts exactly what the encoder writes, in either alphabet |
| `Base64.PaddedDecodesExactly` | src/export.rs:91-94 | the padded decoder accepts exactly what the encoder writes: whole groups, canonical padding, zero trailing bits |
| `Base64.SextetsAreBits` | src/imap.rs:419-420 | the sextets of a byte string are its bits in order, a short last group padded with zero bits (section 4 of RFC 4648) |
| `Base64.SymbolsByTable` | src/imap.rs:419-420 | each sextet has the symbol of the standard table, with a comma in place of the slash for mailbox names |
| `MailboxName.EncodeTurn` | src/imap.rs:426-445 | one turn of the encoder shifts a run of non-ASCII characters and copies or escapes one ASCII character, and leaves less to encode |
| `MailboxName.MailboxPattern` | src/imap.rs:422-447 | the loop writes the modified UTF-7 form of the name (section 5.1.3 of RFC 3501) |
| `MailboxName.AsciiWritesItself` | src/imap.rs:438-445 | wherever it stands, an ASCII character writes itself, or `&-` for an ampersand, and splits the encoding in two |
| `MailboxName.RunsAreShiftedWhole` | src/imap.rs:426-437 | a maximal run of other characters writes one shift: `&`, the base64 of the big-endian UTF-16 of the whole run, `-` |
| `MailboxName.UnitsOfOne` | src/imap.rs:430-432 | the UTF-16 of a character is itself, or the two surrogates that stand for it |
| `MailboxName.BigEndianBytes` | src/imap.rs:432-433 | every unit is written as its high and its low byte, in order |
| `MailboxName.StandardExamples` | src/imap.rs:422-447 | the two shifted names in the example of section 5.1.3 of RFC 3501 are written as they are there |
| `MailboxName.DecodePayload` | src/imap.rs:466-484 | a shifted payload is decoded as base64, then UTF-16 with surrogate pairs, each character only if it still fits |
| `MailboxName.DecodeWireMailboxName` | src/imap.rs:450-500 | the loop over shifts with its length checks and the final re-encoding check |
| `MailboxName.EncodedWithin` | src/imap.rs:450-453 | an encoding is at most two and a half times the UTF-8 length of the name, so no valid name passes 4096 bytes |
| `MailboxName.DecodedFits` | src/imap.rs:486-494 | whatever is decoded stays within 1024 bytes of UTF-8 |
| `MailboxName.ExactLanguage` | src/imap.rs:450-500 | a wire name decodes to a name if and only if it is the encoding of that name, which is at most 1024 bytes long and free of control characters; no length check turns such an encoding down |
| `MailboxName.ConfiguredNamesRoundTrip` | src/imap.rs:409-417 | every name an operator may configure round-trips, surrogate pairs included, and no two share a wire form |
| `MailboxName.ConfigurableExactly` | src/imap.rs:409-417 | a name may be configured if and only if it is not empty and some wire name decodes to it |
| `MailboxName.MailboxByGuard` | src/imap.rs:409-417 | the length is checked before the 65 control characters, each with its own error, and a wire name that does not decode is always a protocol error |
| `MailboxName.Utf8SizeExactly` | src/imap.rs:409-411 | the size that is counted for a character is that of its UTF-8 form, and no other size has one (section 3 of RFC 3629) |
| `MailboxName.OneWireForm` | src/imap.rs:495-498 | no name is decoded from two wire forms |
| `TransportBounds.LargestFitting` | src/frontends/mcp_transport.rs:251-261 | the binary search finds what a scan from the top would find, for every predicate that is downward closed |
| `TransportBounds.LargestIs` | src/frontends/mcp_transport.rs:251-261 | that result is the largest candidate that fits, or the lower end when none does |
| `TransportBounds.FitsIsDownward` | src/frontends/mcp_transport.rs:207-248 | the memory formula only grows with either size, so what fits still fits when made smaller |
| `TransportBounds.Split` | src/frontends/mcp_transport.rs:155-190 | the chain of three or four searches, each keeping what the one before reserved |
| `TransportBounds.SplitFits` | src/frontends/mcp_transport.rs:155-193 | the sizes that come out are at least the reserved ones and fit together; the envelope falls below 1024 exactly when the response bound does |
| `TransportBounds.EnvelopeIsLargest` | src/frontends/mcp_transport.rs:188-190 | no larger envelope fits beside the chosen input |
| `TransportBounds.ReservedInputExactly` | src/frontends/mcp_transport.rs:163-171 | sessions with drafts reserve 1024 bytes of input; others the largest size within the envelope limit, 1 MiB and full search arguments that fits beside the least envelope |
| `TransportBounds.ReservedEnvelopeExactly` | src/frontends/mcp_transport.rs:175-183 | the reserved envelope is the largest within the response bound, the envelope limit and 64 KiB with drafts or 4 MiB without that fits beside the reserved input |
| `TransportBounds.SizesExactly` | src/frontends/mcp_transport.rs:185-190 | the input is the largest within its limit that fits beside the reserved envelope, and the envelope the largest within its own that fits beside that input |
| `TransportBounds.SearchArgumentsAreKept` | src/frontends/mcp_transport.rs:160-171 | a read-only session that can hold full search arguments beside the least envelope accepts them, however large an envelope it chooses |
| `TransportBounds.DefaultsKeepSearchArguments` | src/frontends/mcp_transport.rs:806-811 | the default limits with forty accounts and schemas of 64 KiB keep them |
| `TransportBounds.New` | src/frontends/mcp_transport.rs:133-205 | for valid limits it fails exactly when the fixed part with the 1024/1024 minimum does not fit or the response bound is under 1024; otherwise the plan is sound and maximal, with at least one request |
| `TransportBounds.Admitted` | src/frontends/mcp_transport.rs:196-201 | as many requests as fit and are allowed, at least one, and one more would not fit or not be allowed |
| `Transport.BoundedStdio.AdmitRequest` | src/frontends/mcp_transport.rs:388-410 | a permit and an entry are taken together, and only for an id that is not pending |
| `Transport.BoundedStdio.HandleCancellation` | src/frontends/mcp_transport.rs:575-605 | a cancellation marks a pending request and keeps its slot, drops a deferred one, or is handed on with the control permit |
| `Transport.BoundedStdio.HandleRequest` | src/frontends/mcp_transport.rs:606-662 | a request is forwarded, deferred, refused with the overload error, or ends the session for a used id or a call before initialization |
| `Transport.BoundedStdio.HandleFrame` | src/frontends/mcp_transport.rs:575-670 | the part of a pass after the frame is staged, for every kind of frame |
| `Transport.BoundedStdio.FinishSend` | src/frontends/mcp_transport.rs:460-465 | the end of a send frees the slot of that id and nothing else |
| `Transport.RequestsEndExactly` | src/frontends/mcp_transport.rs:606-626 | a staged request ends the session if and only if it is neither an Initialize nor a Ping request while the session initializes, or reuses an id that is pending or deferred, and an Initialize request clears the initializing state |
| `Transport.RequestsExactly` | src/frontends/mcp_transport.rs:627-662 | any other request is forwarded if and only if none is deferred and a slot is free, deferred if and only if none is deferred and no slot is free, and answered with the overload error if and only if one is deferred; with the whole state that follows |
| `Transport.CancellationsExactly` | src/frontends/mcp_transport.rs:575-605 | a cancellation marks exactly the pending request it names, withdraws the deferred one it names, and is handed on otherwise |
| `Transport.OtherFramesExactly` | src/frontends/mcp_transport.rs:663-670 | a notification is handed on with the control permit, a reply gives the permit back, and neither touches a request |
| `Transport.CancellationSilences` | src/frontends/mcp_transport.rs:575-593 | after its cancellation a pending request is silent if and only if its response was not being written already |
| `Transport.ResponsesAreWritten` | src/frontends/mcp_transport.rs:428-467 | a request that was not cancelled has its response written, settled once, and its slot freed |
| `Transport.EndsExactly` | src/frontends/mcp_transport.rs:490-672 | a session ends exactly when an overload response cannot be written, the deferred request is not taken up in time, the input ends or its control permit does not come in time, a response is too large or late, or a staged request is out of order |
| `Transport.FirstRequest` | src/frontends/mcp_transport.rs:606-614 | a new session reads, and its first request ends it if and only if it is neither Initialize nor Ping |
| `Transport.ReceiveGoesOn` | src/frontends/mcp_transport.rs:490-574 | whatever `receive` waits for can happen, since whoever holds the control permit can give it back |
| `Transport.RequestsGoOn` | src/frontends/mcp_transport.rs:506-536 | a deferred request can be taken up when a slot is free, and every pending one can be answered |
| `Transport.StepKeepsInv` | src/frontends/mcp_transport.rs:490-672 | every stretch between two awaits, an interruption of `receive` included, keeps permits, fates, order, id separation and the accounting of sends |
| `Transport.RunKeepsInv` | src/frontends/mcp_transport.rs:490-672 | the same over runs from any state that satisfies the invariant |
| `Transport.SessionKeepsInv` | src/frontends/mcp_transport.rs:419-672 | over every session: free slots plus pending equals the bound; the control permit has at most one holder; every decoded request has exactly one fate; forwarding keeps decode order; an overload response never carries a pending or deferred id |
| `Transport.DeferredIsAdmitted` | src/frontends/mcp_transport.rs:520-536 | taking up the deferred request always forwards it, ahead of a staged one, and never ends the session for a used id |
| `Transport.CancelledStaysSilent` | src/frontends/mcp_transport.rs:428-467 | a request cancelled while pending holds its slot until its send, which writes nothing and settles it once, whatever happens in between |
| `Paging.Charge` | src/search.rs:129-133 | rows fit the output budget if and only if their sizes and 1024 bytes for each together do |
| `Paging.SearchWindow` | src/search.rs:93-134 | one window: search, reject foreign, repeated or too many UIDs, move the cursor, fetch what is kept, reject foreign or repeated rows |
| `Paging.SearchPage` | src/search.rs:60-137 | the planner with its errors in order: limits, page limit, missing validity, stale cursor, upper UID, windows |
| `Paging.ReadWindows` | src/search.rs:90-136 | the loop over windows stops at an exhausted mailbox, a full page or the window count |
| `Paging.First` | src/search.rs:97-99 | a window ends at the cursor, spans at most the configured size, and all of it unless it reaches down to UID one |
| `Paging.JudgeSorts` | src/search.rs:100-109 | what passes the checks is the matches themselves, strictly descending and inside the window |
| `Paging.AcceptSorts` | src/search.rs:119-128 | what passes the checks is the fetched rows themselves, strictly descending and all asked for |
| `Paging.JudgesExactly` | src/search.rs:100-109 | a search is accepted if and only if it names at most as many UIDs as the window spans, all inside it and no two the same |
| `Paging.AcceptsExactly` | src/search.rs:119-128 | fetched rows are accepted if and only if they are no more than asked for, all asked for and no two the same |
| `Paging.RefusalsExactly` | src/search.rs:65-89 | each refusal before the first window has its own condition, in the order of the checks |
| `Paging.PageReach` | src/search.rs:92-115 | a page goes down by at most the window count times the window size |
| `Paging.EmptyPage` | src/search.rs:92-115 | when nothing matches it goes down by exactly that, or to the end |
| `Paging.PageDescends` | src/search.rs:60-137 | a successful page strictly descends from the cursor, stays above the new cursor and within page limit and budget; only the cursor's next UID moved, strictly down unless it was zero |
| `Paging.PageCovers` | src/search.rs:92-135 | a page passes no message that exists and matches throughout without returning it, whatever else the server does |
| `Paging.PageIsNamed` | src/search.rs:92-135 | a page returns only UIDs that a search of that page named |
| `Paging.PageSucceeds` | src/search.rs:60-137 | a sound request to a server that answers soundly never fails, whatever the mailbox does, when the budget covers the page limit |
| `Paging.TraversalDescends` | src/search.rs:59-137 | over any number of calls, failed ones among them, with any limits and a different mailbox behind each, the returned UIDs strictly descend from the first upper UID |
| `Paging.SteadyOnce` | src/search.rs:59-137 | a message that exists and matches throughout is returned exactly once by the time the cursor has passed it |
| `Paging.TraversalIsNamed` | src/search.rs:59-137 | a traversal returns only what a search of one of its calls named |
| `Paging.FinishedReturnsAll` | src/search.rs:59-137 | on an unchanged mailbox a finished traversal returns exactly its matching messages, highest first |
| `Paging.PageSizeDoesNotMatter` | src/search.rs:59-137 | on an unchanged mailbox any two finished traversals return the same list, whatever their page limits, window sizes, window counts and failed calls |
| `Paging.TraversalFinishes` | src/search.rs:59-137 | while servers answer soundly and keep their validity, as many calls as the first upper UID finish a traversal, however small the limits and whatever changes in between |
| `JsonScan.ValidateJsonBounds` | src/encoding.rs:172-211 | the byte loop accepts what the specification of the scan accepts |
| `JsonScan.ScanValue` | src/encoding.rs:181-209 | scanning a printed value depends only on its depth and structural count and returns to the state it started from |
| `JsonScan.ScanAgreesWithTree` | src/encoding.rs:172-211 | for every JSON text, however spaced and escaped (sections 2 and 7 of RFC 8259), the scan accepts if and only if the true depth is within its bound and the structure, if any, plus one is within its bound |
| `JsonScan.StructureCounts` | src/encoding.rs:201-206 | the counted nodes are exactly the values, object keys and empty containers together |
| `JsonScan.AcceptedFitsBudget` | src/frontends/mcp_transport.rs:234-239 | an accepted text holds no more values and keys than the node limit, as the memory budget assumes |
| `Download.AbsorbChunk` | src/frontends/application.rs:112-146 | the consumer of a chunk: contiguous offset, size limits before decoding, bounded growth, decoding |
| `Download.DownloadAttachment` | src/frontends/application.rs:150-178 | the transfer loop, from an attachment or a continuation the caller holds, over any replies |
| `Download.SizeIsExact` | src/frontends/application.rs:117-118 | the size computed from the text alone is the size it decodes to, the decoder's estimate is at most two bytes more, and the encoded length is the one the envelope check assumes |
| `Download.StandardIsReliable` | src/frontends/application.rs:136-140 | the padded standard codec (section 4 of RFC 4648) has the laws and sizes the transfer relies on |
| `Download.AbsorbIsBounded` | src/frontends/application.rs:126-135 | the buffer asked for is at most two bytes over the decoded limit, decoding never has to grow it further, and each growth doubles it, covers what is needed or reaches the ceiling |
| `Download.DownloadIsWhole` | src/frontends/application.rs:104-178 | a download that finishes read contiguous chunks of some byte string, only the last marked complete, and its reply decodes to the whole from offset zero |
| `Download.WholeIsWithinLimits` | src/frontends/application.rs:120-125 | the whole is within the decoded limit and its encoded reply within the envelope |
| `Download.WholeDownloads` | src/frontends/application.rs:104-178 | conversely, however a byte string is cut into chunks within the limits, the reply decodes to the whole from offset zero |
| `Download.RefusalsExactly` | src/frontends/application.rs:113-139 | a chunk that decodes is an internal error if and only if it is out of place, is consumed if and only if it also fits and its buffer is granted, and is otherwise a response too large |
| `Download.UnfinishedDownloads` | src/frontends/application.rs:164-177 | after continued chunks in order the transfer asks for the continuation the last one names; errors pass through, other replies and chunks out of place are internal errors, and a piece past the limits is a response too large |
| `Export.ExportWriter.WriteChunk` | src/export.rs:67-75 | an error leaves the writer inactive and its partial file cleaned up, and a failed clean-up is reported in its place |
| `Export.ExportWriter.Abort` | src/export.rs:132-135 | the writer goes inactive and the partial file is unlinked, unless that fails |
| `Export.ExportWriter.Write` | src/export.rs:77-111 | a chunk is checked before anything is written, and file, digest, count and reference then move together |
| `Export.ExportWriter.Seal` | src/export.rs:112-128 | the last chunk's size and digest are compared before publishing |
| `Export.RunStaysInStep` | src/export.rs:77-130 | while the writer is active, file, digest and count agree with what the chunks so far decode to, contiguously and from one attachment |
| `Export.ReceiptIsWhole` | src/export.rs:110-128 | a receipt is given only when the file holds everything the chunks decode to, with the size and digest that the last chunk claims, and is published |
| `Export.NothingAfter` | src/export.rs:67-90 | after an error or a receipt every later call fails, no byte reaches the file, what was published stays and what was unlinked does not come back |
| `Export.FailureLeavesNoPartial` | src/export.rs:67-75 | a call that fails and cleans up leaves nothing under the temporary name |
| `Export.PublishedByReceipt` | src/export.rs:120-127 | a publication is confirmed only by a call that gave the receipt |
| `Export.WholeExports` | src/export.rs:77-130 | conversely, however a byte string within the maximum is cut into non-empty chunks, an export whose file accepts them gives the receipt |
| `Export.FailuresAreReported` | src/export.rs:67-75 | a failed call reports the error of a failed clean-up, and otherwise its own |
| `Export.OversizedIsNamed` | src/export.rs:95-101 | a chunk in its place that would pass the maximum is reported as such, and nothing of it is written |
| `Export.UnsealedFails` | src/export.rs:112-121 | a whole whose size or digest is not the one claimed fails, and one that is not published fails with the platform's error |
| `Export.UnlinkedIsGone` | src/export.rs:67-75 | a publication that fails after unlinking the temporary name leaves nothing there |
| `Presentation.SkipCsi` | src/frontends/presentation.rs:333-340 | a control sequence is skipped through its final byte or to the end |
| `Presentation.SkipString` | src/frontends/presentation.rs:342-351 | a control string is skipped through its terminator, a bell only for OSC, or to the end |
| `Presentation.Show` | src/frontends/presentation.rs:301-330 | one turn of the filter, for every kind of character |
| `Presentation.AppendBody` | src/frontends/presentation.rs:293-331 | copying the safe prefix and filtering the rest gives what the filter gives from the start |
| `Presentation.PlainPrefix` | src/frontends/presentation.rs:295-300 | for every output and text, a plain prefix passes through the filter unchanged and leaves the rest as it was |
| `Presentation.PushIsSafe` | src/frontends/presentation.rs:293-331 | whatever the text, the filter only adds to the output, and every character it adds is a newline or not unsafe |
| `Presentation.PushAppends` | src/frontends/presentation.rs:293-331 | what is added does not depend on the output before it |
| `Presentation.FilterFixesPlain` | src/frontends/presentation.rs:275-331 | a text is left alone if and only if it is plain, so filtering twice is filtering once |
| `Presentation.CsiVanishes` | src/frontends/presentation.rs:309-320 | a complete control sequence disappears, whichever way it is introduced |
| `Presentation.StringVanishes` | src/frontends/presentation.rs:314-324 | a complete control string disappears with its payload and the sequences nested in it, whichever of the ten introducers it has |
| `Presentation.StringSplits` | src/frontends/presentation.rs:342-351 | whatever follows an introducer is all payload, or payload, a terminator and a rest, so the lemmas on control strings cover every text |
| `Presentation.UnfinishedCsiVanishes` | src/frontends/presentation.rs:333-340 | a control sequence without a final byte takes the rest of the text with it |
| `Presentation.UnfinishedStringVanishes` | src/frontends/presentation.rs:342-351 | a control string that nothing ends takes the rest of the text with it, letters included, whichever introducer it has |
| `Presentation.VisibleIsDistinct` | src/frontends/presentation.rs:325-327 | different unsafe characters have different visible escapes |
| `Presentation.UnsafeIsShown` | src/frontends/presentation.rs:318-327 | an unsafe character that starts no sequence, a lone escape among them, is shown by the four hexadecimal digits of its code point and not dropped, and the filter goes on after it |
| `Presentation.LineEnds` | src/frontends/presentation.rs:303-307 | a newline, a carriage return and the two together each become one newline |
| `Presentation.TabsAreFourSpaces` | src/frontends/presentation.rs:308-308 | a tab becomes four spaces |
| `Presentation.UnsafeExactly` | src/frontends/presentation.rs:275-281 | the unsafe characters, one by one |
| `Scope.SameMailbox` | src/domain.rs:714-721 | two names mean one mailbox if and only if they are equal or both spell INBOX, in whatever case |
| `Scope.InboxSpellings` | src/domain.rs:714-721 | the names that mean INBOX are exactly the five letters, each in either case; every other name means itself |
| `Scope.MatcherAgrees` | src/config.rs:89-119 | at every list size the matcher and the scope allow the same mailboxes |
| `Scope.IntersectIndexed` | src/config.rs:41-57 | the indexed path returns the shared identities, strictly ascending |
| `Scope.IntersectScanned` | src/config.rs:58-72 | the scanning path returns the listed identities that the other scope allows, strictly ascending |
| `Scope.Dedup` | src/config.rs:70-71 | removing adjacent repeats from a sorted list keeps every name once |
| `Scope.PathsAgree` | src/config.rs:41-72 | for two lists the indexed and the scanning path return the same list |
| `Scope.Intersection` | src/config.rs:41-73 | the intersection is everything when both scopes are, and otherwise the shared identities in strictly ascending order |
| `Scope.MeetIsUnique` | src/config.rs:41-73 | two scopes have one intersection, whatever path computes it |
| `Scope.MeetCommutes` | src/config.rs:41-73 | the order of the two scopes does not matter |
| `Scope.MeetAllows` | src/config.rs:28-73 | the intersection allows a mailbox if and only if both scopes do |
| `Scope.MeetAssociates` | src/config.rs:41-73 | narrowing in any grouping gives the same scope |
| `History.Originals` | scripts/prepare-release.py:87-97 | the backward walk and the final filter |
| `History.OriginalsInOrder` | scripts/prepare-release.py:97-97 | the result is the surviving commits, all of them, in their order |
| `History.RevertedMembers` | scripts/prepare-release.py:90-96 | the set holds exactly what the commits not themselves reverted so far declare reverted |
| `History.LawfulExactly` | scripts/prepare-release.py:91-97 | a commit survives if and only if no surviving later commit reverts it, for all commits, exactly when no effective commit declares itself or a later effective commit reverted |
| `History.BackwardIsLawful` | scripts/prepare-release.py:91-97 | the law holds whenever reverts name only earlier or unlisted commits |
| `History.ForwardBreaksTheLaw` | scripts/prepare-release.py:91-97 | a two-commit history for which the law fails |
| `History.OnlySolution` | scripts/prepare-release.py:91-97 | the survivors are the only set of commits that solves the law |
| `History.ChainSurvives` | scripts/prepare-release.py:91-97 | in a chain of reverts of any depth a commit survives if and only if an even number of reverts follow it |

## Left out

- TLS, sockets, the IMAP wire layer, credential stores, helper processes and operating-system file publication: foreign calls; connections, mailboxes, sources and files are abstract and may answer anything.
- Wall-clock time: deadlines and expiry are steps that may happen, or numbers passed in.
- SQLite: transactions are atomic and an UPDATE is guarded by its WHERE clause; write-ahead logging, snapshot conflicts, backup and restoring an older file are not modelled.
- SHA-256: an arbitrary function of the listed facts or bytes, so no theorem depends on collisions.
- The JSON text of the reconstruction column: a row holds the decoded facts or a mark that they are unreadable.
- Executor shutdown and forced task abortion: a flight's task ends only by its own steps.
- Poisoned locks and closed semaphores: the code never closes its semaphores, and a poisoned lock panics.
- Machine-word overflow outside the ticket counter and the export's byte count: sizes are unbounded naturals, which the configured limits keep far below 64 bits.
- The per-account doctor rate limit, endpoint set-up and credential resolution inside `acquire_inner`: they do not touch the gate or the idle list.
- Attachment chunks carry no account id or generation in the model: they are passed through unchanged.
- Validation of the export root and file name in `ExportWriter::create`: comparisons that are true by reading.
- The library sorts, `dedup` and `HashSet::take` are modelled by their results: an insertion sort, a loop and a set.
- Command-line parsing, guides, diagnostics, schemas, release scripts other than `original_history`: plumbing or text.
- Paging.SearchPage: takes whether the limits it does not read are in order as one boolean, since those are comparisons field by field.
- Transport.BoundedStdio.HandleFrame: the SDK's own decoding and its handlers are not modelled; `receive` is split at its awaits, and the loop around the splits is the step relation.
- Transport.SessionKeepsInv: relies on the SDK sending at most one response for a forwarded request at a time, and covers steps the loop never takes, such as handling a frame although a slot was freed since it last looked.
- Journal.AtMostOnce: restoring an older copy of the database file is outside the theorem, as it is outside the journal's own promise.
- Workers.WorkerBound: starting a flight and reserving its worker are one step, since both happen under the lock of the flights.
- Download.DownloadAttachment: takes the replies as a finite sequence and is left waiting when they run out, since a server may continue forever.
- Export.NothingAfter: how a platform publishes and unlinks is an answer of the file; a publication that fails after linking its final name is an error whose leftover the clean-up reports.
- JsonScan.ScanAgreesWithTree: is about texts that are JSON; what the scan says of malformed text is left to the decoder that follows it.
- History.Originals: the hashes a message declares reverted are a field of the commit; the regular expression that finds them is not modelled.
