# Flowstation: a verified model of its hard core

Flowstation is a TETRA base station in Rust. This project models, in Dafny 4.11, the parts of it whose correctness is not visible from one function body, and proves what they promise:

- **LLC basic link** (clause 22.3.2.3 of ETSI EN 300 392-2): acknowledged transfer over one shared queue, with per-SSI stop-and-wait, alternating N(S), retry timer T251, retry limit N252, acknowledgement piggybacking, and a reporter shared with the UMAC.
- **TDMA time**: slot, frame, multiframe and hyperframe arithmetic modulo the 65536-hyperframe rollover.
- **Bit buffer** and the **type 2, 3 and 4 element codec** (annex E of ETSI EN 300 392-2).
- **SIP dialogs** towards the PBX (RFC 3261), the **RTP packetizer and parser** (RFC 3550), the **subscriber registry** and the **timeslot allocator**.

`dafny verify dfyconfig.toml` checks everything.

## How it is built

Code that changes state is a class; each method is proved to do to the object's value what a function says. The theorems are about those functions and about all sequences of events.

| files | content |
|---|---|
| `Wrappers` | the option type |
| `Tdma` | clock arithmetic, and what its users see of it |
| `TxReceipt` | the reporter's state cell |
| `LlcModel`, `Llc` | the LLC's steps on values, and the entity as a class proved against them |
| `Links`, `LlcLink` | selecting one SSI out of a sequence; one SSI as a stop-and-wait machine with its invariant |
| `LlcSystem`, `LlcTheorems`, `LlcDrain` | the shared queue refines that machine for every SSI; what holds in every reachable state; how long a message can stay |
| `LlcContent` | what is handed to the UMAC and passed to the MLE over a run, field by field, read off the events |
| `LlcAcks`, `LlcAckOrder`, `LlcOvertaken` | what becomes of every N(S) received: built once, handed down once, in order exactly when no tick lets one overtake another, and a run in which one does |
| `LlcAir`, `LlcGiveUp`, `LlcPanic` | the LLC with a peer over lossy channels: the end-to-end theorem, why its side condition is needed, and runs into the panic |
| `Bits`, `BitBuffer` | bit strings and numbers; the buffer with its shifts and masks |
| `TypedFields`, `TypedCodec` | optional elements on bit strings: round trip, nothing else accepted, cut-off and opaque reading; the writers and parsers on the buffer, at any bit offset |
| `SipModel`, `SipRuns`, `Asterisk` | one dialog, all dialogs over all runs, the entity as a class |
| `Rtp`, `Registry`, `Timeslots` | packets, subscriber index, slot ownership |

An accepted acknowledged message is identified by its SSI and its `serial`, the number of acknowledged messages accepted earlier for that SSI. A number received is identified by its SSI, its carrier and its position `ord` among the numbers received there. `serial`, `ord` and the counters `accepted` and `received` are part of the model only.

The retry timer T251 and the retry limit N252 are parameters: `N252` is any number and `T251` any positive one below half a clock wrap. The source has 16 slots and 3 retries.

## What the environment is taken to do

- A reporter handed over with an acknowledged request is in its initial state, expects an acknowledgement and belongs to that request alone. The UMAC marks each submitted copy at most once, transmitted or discarded.
- Ticks start and end alternately and the clock advances one slot per tick (`messagerouter.rs:209-269`). A panic inside an entity is caught by the router (`messagerouter.rs:45-66`) and the entity goes on with the state it had reached.
- In the end-to-end theorem the channels lose but do not reorder or duplicate within one SSI, and the peer answers each data PDU it receives with an acknowledgement carrying its N(S).
- A new SIP call uses a uuid not used before. A lookup by Call-ID may pick any dialog; the results do not depend on which.

## Results that differ from what one would expect

- **A stale acknowledgement can complete the wrong message.** The N(S) is one bit, so after a give-up the message two positions later carries the number of the one before. `LlcAir.NoFalseAck` holds on every run in which no message is given up while an older item of its SSI is still on the air. `LlcGiveUp.DirtyGiveUpBreaks` shows the condition is exact: from every state of such a run whose tick would end with any other give-up, some continuation marks a message acknowledged that the peer never received; `LlcGiveUp.FalseAckIsReachable` gives such a run from the start, for every timer and retry limit.
- **`mark_acknowledged` panics exactly when the attempt acknowledged had been discarded by the UMAC** (`LlcTheorems.AckPanicsIffDiscarded`): `t_umac_done` is set on a discard too, while the reporter insists on Transmitted. The message has then already left the queue, in its final state Discarded. It does happen: in `LlcPanic.AnsweredYetDiscarded`, a run for every positive retry limit, the peer has received and answered the message, and yet it ends Discarded, because the answer to the first copy arrives after the second one was discarded. `LlcPanic.PanicIsReachable` gives a run for every retry limit.
- **A ringing indication that arrives after the answer takes a SIP call back to ringing**, so that a hang-up then goes out as a CANCEL for an INVITE that was answered. `SipRuns.HangUp` says exactly when BYE and when CANCEL is sent; `SipRuns.LateRinging` is a run that shows it.
- **Acknowledgements overtake each other.** They are built oldest first (`LlcAcks.EveryAckIsBuiltOnce`), but one riding on a BL-ADATA waits with it behind the message in flight, and one riding on a stealing-channel payload goes down after the plain acknowledgements of the same tick. `LlcAckOrder.HandedInOrder` says exactly when they reach the UMAC in the order received, by a condition on the state before each tick end: a tick that sends plain acknowledgements has no payload with a number and leaves no number waiting; a message released goes before the payloads and these before what goes on waiting. `LlcOvertaken.Overtaken` is a run without stealing that breaks it. A retransmitted BL-ADATA repeats a number already handed down and never brings a new one (`LlcAckOrder.ResentIsRepeat`).
- **A Via branch is reused after 2^64 draws**: `SipRuns.DialogTraces` keeps the branches of a dialog apart while at most that many have been drawn, and `SipRuns.BranchReused` is a run with one more in which an ACK carries the branch of the INVITE.
- **A timeslot can be held where nobody can release it.** When a second carrier becomes the first one, its timeslot 1 is reserved for control and yet stays kept for its owner, whose release is refused. `Timeslots.HeldOutOfReach` says that this is the only such slot, `Timeslots.OutOfReach` is a run into it.

## Model

| member | source | states |
|---|---|---|
| `Tdma.TimeIntDiff` | crates/tetra-core/src/tdma_time.rs:53-62 | the two correction loops end on the one value congruent to a - b in the half-open window of half a wrap on either side |
| `Tdma.FromIntToInt` | crates/tetra-core/src/tdma_time.rs:69-84 | from_int undoes to_int on every valid time |
| `Tdma.ToIntFromInt` | crates/tetra-core/src/tdma_time.rs:69-84 | to_int after from_int is reduction modulo the wrap, for negative numbers too |
| `Tdma.DiffUndoesAdd` | crates/tetra-core/src/tdma_time.rs:86-93 | diff(add_timeslots(t, n), t) = n for every n in the window, across rollover |
| `Tdma.DiffStep` | crates/tetra-core/src/tdma_time.rs:86-93 | one slot forward ages every instant by one |
| `Tdma.ForwardIsNextOccurrence` | crates/tetra-core/src/tdma_time.rs:104-107 | rounding up reaches the wanted slot by the least shift, 0 to 3 |
| `Tdma.AfterTicksIsCounter` | crates/tetra-entities/src/messagerouter.rs:266-268 | the router's wrapped clock after n ticks is an unbounded counter reduced modulo the wrap |
| `Tdma.DiffCountsTicks` | crates/tetra-core/src/tdma_time.rs:91-93 | diff is the number of ticks between two instants of a run up to half a wrap apart, and a whole wrap less beyond |
| `Tdma.UplinkIsTwoBefore` | crates/tetra-entities/src/llc/llc_bs_ms.rs:598-601 | the uplink slot is the downlink slot two earlier, round the frame |
| `TxReceipt.FinalIsStuck` | crates/tetra-core/src/tx_receipt.rs:96-155 | is_in_final_state holds exactly for the states no sequence of marks ever leaves |
| `TxReceipt.Lives` | crates/tetra-core/src/tx_receipt.rs:96-155 | the states each life of a message ends in, with and without an acknowledgement asked for |
| `TxReceipt.TxReporter.constructor` | crates/tetra-core/src/tx_receipt.rs:63-73 | a new reporter is Pending |
| `TxReceipt.TxReporter.Apply` | crates/tetra-core/src/tx_receipt.rs:106-155 | a mark succeeds only from its one source state and, for acknowledged and lost, only if an acknowledgement is expected; otherwise the state stays and the source panics |
| `TxReceipt.TxReporter.Reset` | crates/tetra-core/src/tx_receipt.rs:158-160 | the reporter is Pending again |
| `LlcModel.DueAfterT251` | crates/tetra-entities/src/llc/llc_bs_ms.rs:717-720 | on the router's clock the retry test fires exactly T251 ticks after the done mark and keeps firing for a whole wrap, across rollover |
| `LlcModel.FirstAck` | crates/tetra-entities/src/llc/llc_bs_ms.rs:117-126 | the acknowledgement taken is the oldest one owed to this SSI on this carrier |
| `LlcModel.FirstSubmitted` | crates/tetra-entities/src/llc/llc_bs_ms.rs:138-146 | the message taken is the first submitted one of this SSI and carrier |
| `LlcModel.FreePassSettles` | crates/tetra-entities/src/llc/llc_bs_ms.rs:788-830 | after the pass the first message of every SSI has been handed down, no later one is touched, and a second pass does nothing |
| `Llc.Llc.constructor` | crates/tetra-entities/src/llc/llc_bs_ms.rs:87-96 | all queues empty |
| `Llc.Llc.ScheduleOutgoingAck` | crates/tetra-entities/src/llc/llc_bs_ms.rs:103-114 | the N(S) received is owed last, with its uplink slot; nothing else changes |
| `Llc.Llc.GetOutAckSeqIfAny` | crates/tetra-entities/src/llc/llc_bs_ms.rs:117-126 | takes the oldest matching acknowledgement out of the queue, or leaves it alone |
| `Llc.Llc.GetNextSendSeq` | crates/tetra-entities/src/llc/llc_bs_ms.rs:130-135 | N(S) is V(S) (0 at first), and V(S) toggles for this SSI only |
| `Llc.Llc.TakeExpectedAckForSsi` | crates/tetra-entities/src/llc/llc_bs_ms.rs:138-146 | removes exactly the first submitted message of the key; its reporter is shared with no message left behind |
| `Llc.Llc.ProcessIncomingAck` | crates/tetra-entities/src/llc/llc_bs_ms.rs:150-192 | completes the message, puts it back at the front, or panics, as the step function says; only the reporter of the message that leaves changes |
| `Llc.Llc.Complete` | crates/tetra-entities/src/llc/llc_bs_ms.rs:171-175 | acknowledging the message that left changes no queued message; panics unless it was Transmitted |
| `Llc.Llc.RxTlaTlDataReqBl` | crates/tetra-entities/src/llc/llc_bs_ms.rs:268-443 | payload-carrying BL-ACK on the request's link, BL-UDATA, BL-ADATA or BL-DATA, as the step function says; no queued reporter changes |
| `Llc.Llc.QueueAcknowledged` | crates/tetra-entities/src/llc/llc_bs_ms.rs:356-439 | the message is numbered, takes an owed acknowledgement along, and is queued last |
| `Llc.Llc.RxTlaTlUnitdataReqBl` | crates/tetra-entities/src/llc/llc_bs_ms.rs:210-254 | the message joins the unacknowledged queue with the request's link, stealing flag and carrier |
| `Llc.Llc.RxTmaUnitdataIndBl` | crates/tetra-entities/src/llc/llc_bs_ms.rs:522-692 | N(S) is owed, N(R) applied, the SDU passed up unless the reporter panicked, as the step function says, whose indications IndicationsInOrder pins |
| `Llc.Llc.TickStart` | crates/tetra-entities/src/llc/llc_bs_ms.rs:967-969 | only the clock changes |
| `Llc.Llc.SubmitForAcknowledgedTransmission` | crates/tetra-entities/src/llc/llc_bs_ms.rs:256-265 | one copy is handed down, the done mark cleared and the reporter Pending again; no other message changes |
| `Llc.Llc.TimerFired` | crates/tetra-entities/src/llc/llc_bs_ms.rs:719-720 | the unsigned age comparison, on the loop-computed difference |
| `Llc.Llc.RetryOne` | crates/tetra-entities/src/llc/llc_bs_ms.rs:704-740 | one round notices the UMAC's report, then waits, resubmits or flags as exhausted |
| `Llc.Llc.RetryAll` | crates/tetra-entities/src/llc/llc_bs_ms.rs:695-740 | every message gets one round; copies and exhausted keys come out in queue order |
| `Llc.Llc.GiveUpOne` | crates/tetra-entities/src/llc/llc_bs_ms.rs:743-780 | the message a key looks up leaves; a transmitted one becomes Lost, and that mark cannot fail |
| `Llc.Llc.GiveUpAll` | crates/tetra-entities/src/llc/llc_bs_ms.rs:741-783 | the flagged keys are worked off in order |
| `Llc.Llc.SubmitRetransmissionsToUmac` | crates/tetra-entities/src/llc/llc_bs_ms.rs:695-786 | retransmissions, then give-ups; activity is reported exactly when a copy was handed down |
| `Llc.Llc.SubmitFreeMessagesToUmac` | crates/tetra-entities/src/llc/llc_bs_ms.rs:788-830 | with a set of blocked SSIs, exactly the first message of every idle SSI is handed down |
| `Llc.Llc.SubmitAckRepliesToUmac` | crates/tetra-entities/src/llc/llc_bs_ms.rs:833-896 | one BL-ACK per owed acknowledgement, in order, stealing when the uplink slot was 2 to 4; none stays owed |
| `Llc.Llc.SubmitUdataMsgsToUmac` | crates/tetra-entities/src/llc/llc_bs_ms.rs:899-906 | the unacknowledged queue is handed down in order |
| `Llc.Llc.TickEnd` | crates/tetra-entities/src/llc/llc_bs_ms.rs:971-990 | the four phases in order: new state, messages handed down, messages given up, activity |
| `LlcContent.TickParts` | crates/tetra-entities/src/llc/llc_bs_ms.rs:971-990 | a tick hands down copies, then replies, then unacknowledged data, and nothing else |
| `LlcLink.RequestInv` | crates/tetra-entities/src/llc/llc_bs_ms.rs:356-439 | a new message keeps the link invariant: history numbered and alternating, everything that left final, at most the head in flight, the UMAC holding exactly the pending copy, submissions in order |
| `LlcLink.AckInv` | crates/tetra-entities/src/llc/llc_bs_ms.rs:150-192 | an acknowledgement keeps it, and completes only a message the UMAC has sent or discarded |
| `LlcLink.MarkInv` | crates/tetra-core/src/tx_receipt.rs:129-136 | a UMAC mark keeps it; the copy belongs to the message in flight and its reporter is Pending, so the mark cannot fail |
| `LlcLink.TimesOutExactlyAtT251` | crates/tetra-entities/src/llc/llc_bs_ms.rs:711-720 | a message in flight times out exactly T251 slots after its done mark |
| `LlcLink.RetriedInFlight` | crates/tetra-entities/src/llc/llc_bs_ms.rs:704-740 | a round on the message in flight counts one more attempt and makes it pending, or leaves attempt count and reporter alone |
| `LlcLink.TickEndInv` | crates/tetra-entities/src/llc/llc_bs_ms.rs:971-990 | the end of a tick keeps the invariant and leaves the first message of the link in flight |
| `LlcLink.TickEndTimely` | crates/tetra-entities/src/llc/llc_bs_ms.rs:704-783 | with a UMAC that reports within d ticks, each attempt takes at most d + T251 ticks |
| `LlcLink.FlightBound` | crates/tetra-entities/src/llc/llc_bs_ms.rs:704-783 | the message in flight was first handed over less than (1 + N252)(d + T251) ticks ago, at most 1 + N252 times |
| `LlcSystem.FirstSubmittedIsHead` | crates/tetra-entities/src/llc/llc_bs_ms.rs:138-146 | the lookup by SSI and carrier finds the first message of that SSI or nothing |
| `LlcSystem.PushFrontKeepsLinks` | crates/tetra-entities/src/llc/llc_bs_ms.rs:157-189 | putting a message back at the front never reorders messages of one SSI |
| `LlcSystem.ProcessAckOnLink` | crates/tetra-entities/src/llc/llc_bs_ms.rs:150-192 | on the shared queue an acknowledgement is one step of its own SSI and none of any other |
| `LlcSystem.GiveUpOnLink` | crates/tetra-entities/src/llc/llc_bs_ms.rs:741-783 | the key lookup removes exactly the flagged message of each flagged SSI and nothing else |
| `LlcSystem.FreePassOnLink` | crates/tetra-entities/src/llc/llc_bs_ms.rs:788-830 | releasing free messages of the shared queue is releasing them SSI by SSI |
| `LlcSystem.MarkRefines` | crates/tetra-core/src/tx_receipt.rs:106-136 | a UMAC mark is one step of the SSI it concerns |
| `LlcSystem.TickEndRefines` | crates/tetra-entities/src/llc/llc_bs_ms.rs:971-990 | the end of a tick on the shared queue is, for every SSI, the end of a tick of its link |
| `LlcTheorems.Refines` | crates/tetra-entities/src/llc/llc_bs_ms.rs:103-990 | every event of the system is, for every SSI, one step of that SSI's machine |
| `LlcTheorems.RunInv` | crates/tetra-entities/src/llc/llc_bs_ms.rs:103-990 | the invariant of every link holds after every sequence of events |
| `LlcTheorems.QueueOrder` | crates/tetra-entities/src/llc/llc_bs_ms.rs:138-189 | in every reachable state only the first queued message of an SSI can be submitted, and queue order is request order |
| `LlcTheorems.FirstIsInFlight` | crates/tetra-entities/src/llc/llc_bs_ms.rs:788-830 | after every tick_end the first message of every SSI is in flight |
| `LlcTheorems.LiveCopies` | crates/tetra-entities/src/llc/llc_bs_ms.rs:256-265 | every copy the UMAC holds belongs to a queued, submitted, Pending message, and no SSI has two |
| `LlcTheorems.DoneIsDone` | crates/tetra-entities/src/llc/llc_bs_ms.rs:150-192 | a message that left has a final reporter that no later event changes, and no copy outstanding |
| `LlcTheorems.GivenUpStates` | crates/tetra-entities/src/llc/llc_bs_ms.rs:762-780 | a message given up ends Lost or Discarded: the unexpected-state branch is dead and mark_lost cannot fail |
| `LlcTheorems.AckPanicsIffDiscarded` | crates/tetra-entities/src/llc/llc_bs_ms.rs:171-175 | an acknowledgement panics if and only if the message it completes had its current copy discarded; otherwise that message becomes Acknowledged |
| `LlcTheorems.Conservation` | crates/tetra-entities/src/llc/llc_bs_ms.rs:356-443 | every accepted message is at all times exactly one of gone with a final reporter, in flight, waiting |
| `LlcTheorems.Alternation` | crates/tetra-entities/src/llc/llc_bs_ms.rs:130-135 | along an SSI's queue N(S) alternates and the newest is the complement of V(S) |
| `LlcTheorems.StaleAckIgnored` | crates/tetra-entities/src/llc/llc_bs_ms.rs:171-189 | an N(R) repeating that of the message that left last completes nothing |
| `LlcTheorems.SubmissionOrder` | crates/tetra-entities/src/llc/llc_bs_ms.rs:704-830 | submissions of one SSI follow request order; copies of one message are consecutive and at most 1 + N252 |
| `LlcTheorems.TerminationBound` | crates/tetra-entities/src/llc/llc_bs_ms.rs:704-783 | in every run in which the UMAC reports within d ticks, a message still in flight was first submitted less than (1 + N252)(d + T251) ticks ago |
| `LlcDrain.DrainBound` | crates/tetra-entities/src/llc/llc_bs_ms.rs:704-830 | in such a run a queued message with k messages of its SSI ahead has left within 1 + (k + 1)(1 + N252)(d + T251) ticks |
| `LlcContent.CopiesCarryTheirRequest` | crates/tetra-entities/src/llc/llc_bs_ms.rs:356-443 | over every run every copy handed down, first or repeated, carries the SDU, SSI and carrier of the k-th request for its SSI, N(S) k mod 2, and as N(R) a number received there |
| `LlcContent.CopiesAreSubmissions` | crates/tetra-entities/src/llc/llc_bs_ms.rs:256-265 | the submissions that the order and time bounds speak of are the copies handed down, one for one |
| `LlcContent.UnacknowledgedInOrder` | crates/tetra-entities/src/llc/llc_bs_ms.rs:210-355 | over every run what is handed down without a reporter is, in request order, what was asked for: SDU, SSI, carrier, link and stealing flag, as BL-UDATA or on the oldest acknowledgement owed |
| `LlcContent.RepliesAnswer` | crates/tetra-entities/src/llc/llc_bs_ms.rs:833-896 | over every run a plain BL-ACK carries a number received on its SSI and carrier and no SDU, and steals from the slot that number came in unless that was slot 1 |
| `LlcContent.IndicationsInOrder` | crates/tetra-entities/src/llc/llc_bs_ms.rs:522-692 | over every run the MLE gets, in order, one indication per good BL-DATA, BL-ADATA, non-empty BL-ACK and BL-UDATA with its SSI and SDU, but for those whose acknowledgement met a discarded copy |
| `LlcContent.AnswerCompletes` | crates/tetra-entities/src/llc/llc_bs_ms.rs:150-192 | over every run a PDU that repeats the N(S) of the message in flight on its carrier, once the copy is done, completes that message and no other |
| `LlcContent.SubmittedInItsSlot` | crates/tetra-entities/src/llc/llc_bs_ms.rs:788-830 | over every run a message handed down is due in the timeslot in which it was asked for |
| `LlcAcks.EveryAckIsBuiltOnce` | crates/tetra-entities/src/llc/llc_bs_ms.rs:117-126 | over every run each N(S) received is put as N(R) in exactly one new PDU of the same SSI and carrier, oldest first, and none is owed after tick_end |
| `LlcAcks.RepliesCarryTheOwed` | crates/tetra-entities/src/llc/llc_bs_ms.rs:833-896 | the numbers read off the plain BL-ACKs of a tick are the numbers owed, in order |
| `LlcAckOrder.NumbersConserved` | crates/tetra-entities/src/llc/llc_bs_ms.rs:103-990 | over every run each number received is in exactly one place: handed down, on a waiting message, on a waiting payload, owed |
| `LlcAckOrder.OrderOneTick` | crates/tetra-entities/src/llc/llc_bs_ms.rs:971-990 | numbers handed down in order so far stay in order through a tick if and only if the tick overtakes nothing |
| `LlcAckOrder.RidingLeave` | crates/tetra-entities/src/llc/llc_bs_ms.rs:741-830 | which numbers a tick releases and which go on waiting, read off the state before it |
| `LlcAckOrder.HandedInOrder` | crates/tetra-entities/src/llc/llc_bs_ms.rs:695-990 | over every run the numbers of an SSI and carrier are handed down in the order received, without gap or repeat, if and only if no tick of the run overtakes |
| `LlcAckOrder.ResentIsRepeat` | crates/tetra-entities/src/llc/llc_bs_ms.rs:704-740 | the N(R) of a retransmitted message had been handed down before |
| `LlcOvertaken.WaitingIsOvertaken` | crates/tetra-entities/src/llc/llc_bs_ms.rs:788-896 | a number on a message waiting behind one that stays in flight is overtaken by every reply owed there |
| `LlcOvertaken.Overtaken` | crates/tetra-entities/src/llc/llc_bs_ms.rs:356-443 | a run without stealing in which the second number received is handed down first |
| `LlcAir.AckAnswersCurrent` | crates/tetra-entities/src/llc/llc_bs_ms.rs:150-192 | on the air of a clean run, the oldest acknowledgement completes the message in flight only if it answers that message |
| `LlcAir.CleanRunInv` | crates/tetra-entities/src/llc/llc_bs_ms.rs:103-990 | in every clean run the air holds, in order, only the message in flight and its predecessor |
| `LlcAir.NoFalseAck` | crates/tetra-entities/src/llc/llc_bs_ms.rs:130-192 | over every clean run with a lossy channel, a message is marked acknowledged only after the peer received that very message |
| `LlcGiveUp.StaleAckCompletesNext` | crates/tetra-entities/src/llc/llc_bs_ms.rs:741-783 | from a give-up with a stale answer underway, a run to the false acknowledgement of the next message |
| `LlcGiveUp.DirtyGiveUpBreaks` | crates/tetra-entities/src/llc/llc_bs_ms.rs:741-783 | from every state about to end a tick with a give-up that is not clean, some continuation breaks the end-to-end claim |
| `LlcGiveUp.FalseAckIsReachable` | crates/tetra-entities/src/llc/llc_bs_ms.rs:741-783 | such a run exists from the start, for every timer and retry limit |
| `LlcPanic.AnsweredYetDiscarded` | crates/tetra-entities/src/llc/llc_bs_ms.rs:171-175 | with at least one retry, a run in which a message the peer received and answered ends Discarded with the panic |
| `LlcPanic.PanicIsReachable` | crates/tetra-entities/src/llc/llc_bs_ms.rs:171-175 | a run into the panic, for every timer and retry limit |
| `Bits.MaskedBit` | crates/tetra-core/src/bitbuffer.rs:402-412 | masking h bits into a byte at an offset writes exactly those bits |
| `Bits.FieldValue` | crates/tetra-core/src/bitbuffer.rs:680-690 | shifting and masking a byte gives the number of the h bits at the offset |
| `Bits.WrittenIsRead` | crates/tetra-core/src/bitbuffer.rs:376-439 | what is written at a place reads back as the same value, and every other bit is unchanged |
| `BitBuffers.BitBuffer.constructor` | crates/tetra-core/src/bitbuffer.rs:20-29 | a zeroed window of exactly the length asked for |
| `BitBuffers.BitBuffer.Autoexpand` | crates/tetra-core/src/bitbuffer.rs:33-42 | an empty window over zeroed capacity |
| `BitBuffers.BitBuffer.FromBitbuffer` | crates/tetra-core/src/bitbuffer.rs:105-118 | the byte-wise copy denotes the same bits as the source window |
| `BitBuffers.BitBuffer.FromBitbufferPos` | crates/tetra-core/src/bitbuffer.rs:122-135 | the byte-wise copy denotes the unread part of the source |
| `BitBuffers.BitBuffer.ReadBitsAtUnchecked` | crates/tetra-core/src/bitbuffer.rs:673-711 | the three-phase reader gives the big-endian value of the bits, for every alignment and width to 64 |
| `BitBuffers.BitBuffer.ReadTail` | crates/tetra-core/src/bitbuffer.rs:700-708 | the bit-by-bit tail extends the value read so far |
| `BitBuffers.BitBuffer.ReadBitAtUnchecked` | crates/tetra-core/src/bitbuffer.rs:716-718 | the single-bit read |
| `BitBuffers.BitBuffer.PeekBitsStartoffset` | crates/tetra-core/src/bitbuffer.rs:199-208 | succeeds exactly when at most 64 bits are asked for inside the window |
| `BitBuffers.BitBuffer.PeekBitsPosoffset` | crates/tetra-core/src/bitbuffer.rs:188-195 | the same at a signed distance; an offset before the window fails |
| `BitBuffers.BitBuffer.PeekBits` | crates/tetra-core/src/bitbuffer.rs:181-184 | the next bits, without advancing |
| `BitBuffers.BitBuffer.ReadBits` | crates/tetra-core/src/bitbuffer.rs:211-215 | advances exactly on success |
| `BitBuffers.BitBuffer.TrySeek` | crates/tetra-core/src/bitbuffer.rs:508-515 | moves exactly when the target is in the window |
| `BitBuffers.BitBuffer.TrySeekRel` | crates/tetra-core/src/bitbuffer.rs:535-542 | moves exactly when the target is in the window |
| `BitBuffers.BitBuffer.SeekRel` | crates/tetra-core/src/bitbuffer.rs:547-555 | inside the window the panicking form does not panic |
| `BitBuffers.BitBuffer.SetRawPos` | crates/tetra-core/src/bitbuffer.rs:589-593 | the cursor moves |
| `BitBuffers.BitBuffer.MoveEnd` | crates/tetra-core/src/bitbuffer.rs:248-291 | the end moves by the full width; reallocation keeps every bit and pads with zeros |
| `BitBuffers.BitBuffer.WriteBits` | crates/tetra-core/src/bitbuffer.rs:376-439 | for every alignment, width and value in range the bits are replaced and all others kept, also through reallocation |
| `BitBuffers.BitBuffer.PutBits` | crates/tetra-core/src/bitbuffer.rs:395-435 | head, body and tail together write the value's bits |
| `BitBuffers.BitBuffer.WriteBit` | crates/tetra-core/src/bitbuffer.rs:333-350 | one bit is replaced, all others kept |
| `BitBuffers.BitBuffer.CopyBits` | crates/tetra-core/src/bitbuffer.rs:443-455 | exactly the source's next n bits are written, also across the end of a growing target, and by how much the end moves |
| `BitBuffers.GrownStep` | crates/tetra-core/src/bitbuffer.rs:443-455 | the closed form of the growth: each piece of 64 that crosses the end moves it by its whole width |
| `BitBuffers.BitBuffer.TryToBitarr` | crates/tetra-core/src/bitbuffer.rs:140-159 | all bits, one per element, or nothing at all |
| `BitBuffers.BitBuffer.XorBytearr` | crates/tetra-core/src/bitbuffer.rs:302-330 | exactly the first n bits are xored; if the window is short, exactly the whole 64-bit chunks that fit |
| `BitBuffers.BitBuffer.XorOneChunk` | crates/tetra-core/src/bitbuffer.rs:305-328 | one chunk is read, xored and written back in place |
| `BitBuffers.DataChunk` | crates/tetra-core/src/bitbuffer.rs:312-320 | bytes gathered and shifted back are the next c bits of the data |
| `BitBuffers.XorTwice` | crates/tetra-core/src/bitbuffer.rs:302-330 | xoring twice with the same data restores the buffer |
| `TypedFields.HeaderRead` | crates/tetra-core/src/typed_pdu_fields.rs:164-196 | a written header is recognised under its own identifier and no other, and its length read back |
| `TypedFields.NumberUndoes` | crates/tetra-core/src/typed_pdu_fields.rs:62-134 | an n-bit number is an element codec whose parser undoes its writer |
| `TypedFields.Type2RoundTrip` | crates/tetra-core/src/typed_pdu_fields.rs:90-159 | a type 2 element, present or absent, parses back |
| `TypedFields.Type3RoundTrip` | crates/tetra-core/src/typed_pdu_fields.rs:291-404 | a type 3 element parses back within the 11-bit length |
| `TypedFields.Type4RoundTrip` | crates/tetra-core/src/typed_pdu_fields.rs:448-652 | a list of elements parses back within the 11-bit length and the 6-bit count |
| `TypedFields.NotMine` | crates/tetra-core/src/typed_pdu_fields.rs:164-196 | what follows an absent type 3 or 4 element is never taken for it |
| `TypedFields.TailRoundTrip` | crates/tetra-core/src/typed_pdu_fields.rs:62-652 | every tail of o-bit, type 2 elements, type 3 and 4 elements with distinct identifiers, coded or opaque, and closing m-bit parses back to the same values, consuming exactly its own bits, for any codecs that undo themselves |
| `TypedFields.LocationUpdateAcceptRoundTrip` | crates/tetra-pdus/src/mm/pdus/d_location_update_accept.rs:73-230 | its optional fields, opaque type 3 and 4 ones among them, in their order and with their identifiers, parse back |
| `TypedFields.Type3ReadOpaquely` | crates/tetra-core/src/typed_pdu_fields.rs:202-287 | the same for type 3, beyond the 128 bits kept too |
| `TypedFields.Type4ReadOpaquely` | crates/tetra-core/src/typed_pdu_fields.rs:554-597 | an opaque reader of any coded type 4 element consumes exactly it, with its count, its length and the number of its first 64 bits |
| `TypedFields.TailReadOpaquely` | crates/tetra-core/src/typed_pdu_fields.rs:202-597 | a tail read by a parser that takes some type 3 and 4 elements for opaque bits: these are consumed whole, every other field is found unchanged |
| `TypedFields.NumberExact` | crates/tetra-core/src/typed_pdu_fields.rs:62-134 | an n-bit number parser accepts only what its writer writes |
| `TypedFields.NumberNotices` | crates/tetra-core/src/typed_pdu_fields.rs:62-87 | an n-bit number cut off anywhere is refused as ended |
| `TypedFields.TailExact` | crates/tetra-core/src/typed_pdu_fields.rs:62-652 | whatever is accepted whole is the tail written for the values found; only an o-bit that announces nothing is accepted besides |
| `TypedFields.AbsentIsNotMine` | crates/tetra-core/src/typed_pdu_fields.rs:164-196 | an element is taken for absent only where another or none is announced, and nothing is consumed |
| `TypedFields.LyingLength` | crates/tetra-core/src/typed_pdu_fields.rs:229-236 | an announced element whose stated length is cut off, too small for the count or more than there is, is refused for that reason |
| `TypedFields.MismatchedLength` | crates/tetra-core/src/typed_pdu_fields.rs:332-346 | an element that does not fill its stated length is refused with both lengths |
| `TypedFields.TailCutOff` | crates/tetra-core/src/typed_pdu_fields.rs:62-652 | a written tail cut off anywhere is refused as ended, never read as a shorter one |
| `TypedFields.Generic3RoundTrip` | crates/tetra-core/src/typed_pdu_fields.rs:202-446 | an uninterpreted type 3 element of up to 128 bits parses back |
| `TypedFields.HeaderIsInside` | crates/tetra-core/src/typed_pdu_fields.rs:448-501 | a type 4 header is accepted only if its payload lies inside the window |
| `TypedCodec.ParseType2Generic` | crates/tetra-core/src/typed_pdu_fields.rs:62-87 | the buffer parser gives what the decoder says, the end of the buffer included, and leaves the cursor where it says |
| `TypedCodec.ParseType2Struct` | crates/tetra-core/src/typed_pdu_fields.rs:90-112 | the same for any element parser |
| `TypedCodec.WriteType2Generic` | crates/tetra-core/src/typed_pdu_fields.rs:116-134 | the encoding is written at the cursor, inside the window, at the end of a growing buffer or across it, and the text before the cursor stays |
| `TypedCodec.WriteType2Struct` | crates/tetra-core/src/typed_pdu_fields.rs:137-159 | the encoding is written at the cursor, inside the window, at the end of a growing buffer or across it, and the text before the cursor stays |
| `TypedCodec.PeekType34MbitAndId` | crates/tetra-core/src/typed_pdu_fields.rs:164-196 | peeks without moving, for every buffer content |
| `TypedCodec.ParseType3Generic` | crates/tetra-core/src/typed_pdu_fields.rs:202-287 | no seek leaves the window; nothing consumed when absent; on success exactly 16 + len bits, data the first 128 |
| `TypedCodec.ReadWide` | crates/tetra-core/src/typed_pdu_fields.rs:240-270 | two 64-bit halves give the value of up to 128 bits |
| `TypedCodec.ParseType3Struct` | crates/tetra-core/src/typed_pdu_fields.rs:291-348 | accepted only if the parser consumes exactly the stated length |
| `TypedCodec.WriteType34HeaderGeneric` | crates/tetra-core/src/typed_pdu_fields.rs:351-354 | m-bit and identifier are written at the cursor |
| `TypedCodec.WriteType3Struct` | crates/tetra-core/src/typed_pdu_fields.rs:357-404 | with the length back-filled, exactly the encoding has been written; a value without o-bit is an error and writes nothing |
| `TypedCodec.WriteType3Generic` | crates/tetra-core/src/typed_pdu_fields.rs:407-446 | header and up to 128 bits are written, in halves when over 64 |
| `TypedCodec.ParseType4Header` | crates/tetra-core/src/typed_pdu_fields.rs:448-501 | short, inconsistent and oversized lengths are refused |
| `TypedCodec.ParseType4Struct` | crates/tetra-core/src/typed_pdu_fields.rs:504-550 | the counted elements must fill exactly the stated payload |
| `TypedCodec.ParseElements` | crates/tetra-core/src/typed_pdu_fields.rs:526-530 | the loop reads the counted elements one after the other |
| `TypedCodec.ParseType4Generic` | crates/tetra-core/src/typed_pdu_fields.rs:554-597 | no seek leaves the window; on success exactly 22 + payload bits, data the first 64 |
| `TypedCodec.WriteType4Struct` | crates/tetra-core/src/typed_pdu_fields.rs:600-652 | with length and count back-filled, exactly the encoding has been written |
| `TypedCodec.WriteTail` | crates/tetra-pdus/src/mm/pdus/d_location_update_accept.rs:141-230 | the way the PDUs write their optional fields, opaque ones among them, writes exactly the tail |
| `TypedCodec.ReadTail` | crates/tetra-pdus/src/mm/pdus/d_location_update_accept.rs:71-121 | the way the PDUs read them, opaque ones among them, gives exactly what the tail parser says, with the closing m-bit checked |
| `SipModel.ReactKeeps` | crates/tetra-entities/src/net_asterisk/entity.rs:1169-1534 | every handler keeps the invariant tying a dialog to its trace |
| `SipModel.AnswerKeeps` | crates/tetra-entities/src/net_asterisk/entity.rs:1450-1498 | a 2xx is acknowledged, and followed by BYE when it raced a CANCEL |
| `SipModel.ChallengeKeeps` | crates/tetra-entities/src/net_asterisk/entity.rs:1499-1520 | the challenge is acknowledged inside the old transaction before the one retry, which takes the next number and a new branch and never follows a CANCEL |
| `SipModel.FailureKeeps` | crates/tetra-entities/src/net_asterisk/entity.rs:1521-1531 | a final failure is acknowledged at once inside the transaction, and CMCE told unless it had released the call itself |
| `SipModel.ReleaseKeeps` | crates/tetra-entities/src/net_asterisk/entity.rs:1169-1200 | CMCE's release sends CANCEL or BYE in the right transaction |
| `SipRuns.RunInv` | crates/tetra-entities/src/net_asterisk/entity.rs:1067-1560 | the invariant holds for every dialog after every run |
| `SipRuns.DialogTraces` | crates/tetra-entities/src/net_asterisk/entity.rs:502-594 | over every run: every start, response, hang-up and CMCE message is followed at once by what Answered demands, and nothing goes out without its cause; at most two INVITEs per outbound dialog, numbered 1 and 2 and none after a CANCEL, every CANCEL and failure ACK with branch and number of the latest INVITE; nothing to CMCE after a release in either direction; no transaction opens on a branch used before while at most 2^64 have been drawn |
| `SipRuns.NothingMissed` | crates/tetra-entities/src/net_asterisk/entity.rs:1004-1534 | over every run what the trace says came in is what the events brought, in order |
| `SipRuns.GoneWhenEnded` | crates/tetra-entities/src/net_asterisk/entity.rs:1169-1534 | over every run a started dialog that is gone was released from one side or refused by CMCE, and one that is there was not, unless its INVITE is being cancelled |
| `SipRuns.ReleaseTime` | crates/tetra-entities/src/net_asterisk/entity.rs:1188-1200 | a dialog has a release time exactly while it is being cancelled, that of CMCE's last release |
| `SipRuns.ReapedAfter32` | crates/tetra-entities/src/net_asterisk/entity.rs:1544-1560 | the reaper drops exactly the dialogs CMCE last released 32 seconds ago or more |
| `SipRuns.CancellingEndsInRemoval` | crates/tetra-entities/src/net_asterisk/entity.rs:1188-1200 | Cancelling is left only by removal, and a removed dialog never comes back |
| `SipRuns.HangUp` | crates/tetra-entities/src/net_asterisk/entity.rs:1169-1183 | a release goes out as BYE exactly when the callee has answered since it last rang, else as CANCEL |
| `SipRuns.LateRinging` | crates/tetra-entities/src/net_asterisk/entity.rs:1434-1449 | a run in which an answered call is hung up with CANCEL |
| `SipRuns.BranchReused` | crates/tetra-entities/src/net_asterisk/entity.rs:351-355 | with one draw more, a run in which the ACK of a 2xx carries the branch of the INVITE |
| `Asterisk.AsteriskEntity.constructor` | crates/tetra-entities/src/net_asterisk/entity.rs:274-310 | no dialogs |
| `Asterisk.AsteriskEntity.NextBranch` | crates/tetra-entities/src/net_asterisk/entity.rs:351-355 | the wrapping counter gives the number of the draw modulo 2^64 |
| `Asterisk.AsteriskEntity.SendKeepalive` | crates/tetra-entities/src/net_asterisk/entity.rs:410-460 | REGISTER and OPTIONS draw a branch and touch no dialog |
| `Asterisk.AsteriskEntity.SendInvite` | crates/tetra-entities/src/net_asterisk/entity.rs:502-566 | the INVITE goes out on the next branch drawn, which the dialog remembers |
| `Asterisk.AsteriskEntity.SendByeOrCancel` | crates/tetra-entities/src/net_asterisk/entity.rs:568-594 | CANCEL with the INVITE's branch and number, BYE with the next branch drawn and the next number |
| `Asterisk.AsteriskEntity.StartOutboundCall` | crates/tetra-entities/src/net_asterisk/entity.rs:1067-1112 | the step of a new outbound call, accepted or rejected, also under a uuid already in the table |
| `Asterisk.AsteriskEntity.StartInboundCall` | crates/tetra-entities/src/net_asterisk/entity.rs:941-995 | the step of an accepted inbound call |
| `Asterisk.AsteriskEntity.HandleInboundSetupReject` | crates/tetra-entities/src/net_asterisk/entity.rs:1004-1026 | rejects and removes inbound dialogs only |
| `Asterisk.AsteriskEntity.HandleInboundAlert` | crates/tetra-entities/src/net_asterisk/entity.rs:1028-1038 | rings inbound dialogs only |
| `Asterisk.AsteriskEntity.HandleInboundConnectRequest` | crates/tetra-entities/src/net_asterisk/entity.rs:1040-1065 | answers inbound dialogs only |
| `Asterisk.AsteriskEntity.ReleaseDialog` | crates/tetra-entities/src/net_asterisk/entity.rs:1169-1200 | a cancelled outbound dialog stays, every other one is removed |
| `Asterisk.AsteriskEntity.RxRelease` | crates/tetra-entities/src/net_asterisk/entity.rs:1690-1692 | the step of CMCE's release |
| `Asterisk.AsteriskEntity.HandlePeerHangup` | crates/tetra-entities/src/net_asterisk/entity.rs:1374-1383 | the step of a BYE or CANCEL request: CMCE is told unless the call was already cancelled |
| `Asterisk.AsteriskEntity.AckNon2xx` | crates/tetra-entities/src/net_asterisk/entity.rs:1648-1656 | the ACK carries the dialog's INVITE branch and number |
| `Asterisk.AsteriskEntity.HandleInviteResponse` | crates/tetra-entities/src/net_asterisk/entity.rs:1425-1534 | the step of a response, for every status code |
| `Asterisk.AsteriskEntity.HandleAnswer` | crates/tetra-entities/src/net_asterisk/entity.rs:1450-1498 | the step of a 2xx |
| `Asterisk.AsteriskEntity.HandleChallenge` | crates/tetra-entities/src/net_asterisk/entity.rs:1499-1520 | the step of a 401 or 407 |
| `Asterisk.AsteriskEntity.MaybePeriodicSip` | crates/tetra-entities/src/net_asterisk/entity.rs:1544-1560 | exactly the dialogs cancelled 32 seconds ago or more are dropped |
| `Rtp.RtpPacketizer.constructor` | crates/tetra-entities/src/net_asterisk/audio.rs:179-189 | sequence 1, timestamp 0, marker armed |
| `Rtp.RtpPacketizer.MarkTalkspurt` | crates/tetra-entities/src/net_asterisk/audio.rs:192-194 | only the marker is armed |
| `Rtp.RtpPacketizer.Push` | crates/tetra-entities/src/net_asterisk/audio.rs:196-204 | as many full packets as there are, the rest stays pending |
| `Rtp.RtpPacketizer.BuildPacket` | crates/tetra-entities/src/net_asterisk/audio.rs:206-218 | the header byte for byte, counters wrapped, marker disarmed |
| `Rtp.StreamPackets` | crates/tetra-entities/src/net_asterisk/audio.rs:178-219 | for every sequence of pushes and marks, packet k in closed form: sequence (1+k) mod 2^16, timestamp k times the size mod 2^32, marker exactly on talkspurt starts, the k-th piece of the stream |
| `Rtp.PacketFields` | crates/tetra-entities/src/net_asterisk/audio.rs:206-218 | where the header numbers stand and what they are |
| `Rtp.StreamFields` | crates/tetra-entities/src/net_asterisk/audio.rs:178-219 | every packet of every stream, field by field: version, marker, sequence number, timestamp and SSRC as numbers, and its piece of the stream |
| `Rtp.PayloadFound` | crates/tetra-entities/src/net_asterisk/audio.rs:221-257 | the payload of every well-formed packet is found, whatever CSRC list, extension and padding bytes it has |
| `Rtp.OnlyLaidOut` | crates/tetra-entities/src/net_asterisk/audio.rs:221-257 | nothing else has a payload: every accepted packet is laid out so, and its type and payload are returned |
| `Rtp.PacketPayload` | crates/tetra-entities/src/net_asterisk/audio.rs:206-257 | the parser recovers each chunk the packetizer sent |
| `Rtp.Conserved` | crates/tetra-entities/src/net_asterisk/audio.rs:196-257 | the payloads of the packets emitted, followed by the pending bytes, are all bytes pushed |
| `Registry.RunIsHistory` | crates/tetra-config/src/bluestation/state.rs:83-133 | after any run a subscriber is attached to a group exactly when its last affiliation was not followed by a deaffiliation, a deregistration or a new registration |
| `Registry.RegisteredIsHistory` | crates/tetra-config/src/bluestation/state.rs:78-133 | after any run a subscriber is registered exactly when something registered it and no deregistration followed |
| `Registry.SubscriberRegistry.constructor` | crates/tetra-config/src/bluestation/state.rs:70-76 | empty, and the group index agrees |
| `Registry.SubscriberRegistry.StillHasMembers` | crates/tetra-config/src/bluestation/state.rs:107-108 | the scan finds a member exactly when there is one |
| `Registry.SubscriberRegistry.Register` | crates/tetra-config/src/bluestation/state.rs:83-92 | a fresh subscriber; the index stays the union of all groups |
| `Registry.SubscriberRegistry.Deregister` | crates/tetra-config/src/bluestation/state.rs:103-114 | the subscriber is gone; the index stays the union of all groups |
| `Registry.SubscriberRegistry.Affiliate` | crates/tetra-config/src/bluestation/state.rs:117-121 | one more attachment; the index stays the union |
| `Registry.SubscriberRegistry.Deaffiliate` | crates/tetra-config/src/bluestation/state.rs:124-133 | one attachment fewer; the index stays the union |
| `Registry.SubscriberRegistry.HasGroupMembers` | crates/tetra-config/src/bluestation/state.rs:136-138 | true exactly when some subscriber is attached |
| `Registry.SubscriberRegistry.RememberDgnaGroup` | crates/tetra-config/src/bluestation/state.rs:161-170 | one group remembered for one device, nothing else changed |
| `Registry.SubscriberRegistry.ForgetDgnaGroup` | crates/tetra-config/src/bluestation/state.rs:172-181 | one group forgotten, reported exactly if it was there; no empty entry stays |
| `Registry.SubscriberRegistry.DeviceGroupsOf` | crates/tetra-config/src/bluestation/state.rs:194-235 | exactly the attached and remembered groups, sorted, without repeats, with the right flags |
| `Registry.IntoValues` | crates/tetra-config/src/bluestation/state.rs:234-234 | the values of an ordered map in key order |
| `Timeslots.FreeAndOwned` | crates/tetra-core/src/timeslot_alloc.rs:195-205 | free plus owned allocatable slots are four per carrier less the reserved one |
| `Timeslots.LocateFinds` | crates/tetra-core/src/timeslot_alloc.rs:53-73 | every allocatable slot is found under its own carrier and timeslot |
| `Timeslots.Reconfigured` | crates/tetra-core/src/timeslot_alloc.rs:75-95 | carriers stay distinct and non-empty |
| `Timeslots.OwnerChange` | crates/tetra-core/src/timeslot_alloc.rs:75-167 | a slot allocatable before and after changes owner only by being taken while free or by its owner's release |
| `Timeslots.RowsFollow` | crates/tetra-core/src/timeslot_alloc.rs:75-95 | reconfiguration keeps the owner of every slot allocatable both before and after |
| `Timeslots.FirstOccurrences` | crates/tetra-core/src/timeslot_alloc.rs:75-83 | configured carriers are kept without repeats in the order of first occurrence, [0] if there are none |
| `Timeslots.CarriersAreLast` | crates/tetra-core/src/timeslot_alloc.rs:75-95 | the carriers after any run are those of the last configuration |
| `Timeslots.KeptUntilReleased` | crates/tetra-core/src/timeslot_alloc.rs:101-167 | over any run an owned slot stays owned until its owner releases it, as long as it stays allocatable |
| `Timeslots.OwnershipIsHistory` | crates/tetra-core/src/timeslot_alloc.rs:75-180 | after any run a slot is kept for exactly the one it was last given to, unless released or its carrier dropped since, and is owned by that one whenever it is allocatable |
| `Timeslots.HeldOutOfReach` | crates/tetra-core/src/timeslot_alloc.rs:148-167 | a kept slot is released to its owner unless it is the first carrier's timeslot 1 |
| `Timeslots.OutOfReach` | crates/tetra-core/src/timeslot_alloc.rs:75-95 | a run after which a slot is kept for its owner and cannot be released |
| `Timeslots.AllocateTakesFirst` | crates/tetra-core/src/timeslot_alloc.rs:105-120 | allocation fails exactly when free_slot_count is 0, else takes the first free supported slot and leaves one fewer free |
| `Timeslots.ReleaseFrees` | crates/tetra-core/src/timeslot_alloc.rs:148-167 | granted exactly to the owner; then the slot is free, one more is and no other slot changes; a refusal names its reason |
| `Timeslots.ReserveTakes` | crates/tetra-core/src/timeslot_alloc.rs:127-141 | granted exactly for an allocatable free slot; then it is the asker's, one fewer is free and no other slot changes; a refusal names its reason |
| `Timeslots.TimeslotAllocator.constructor` | crates/tetra-core/src/timeslot_alloc.rs:43-50 | one carrier, all free |
| `Timeslots.TimeslotAllocator.CarrierIdx` | crates/tetra-core/src/timeslot_alloc.rs:53-58 | the first position of the carrier |
| `Timeslots.TimeslotAllocator.LocateSlot` | crates/tetra-core/src/timeslot_alloc.rs:60-73 | unknown carrier before invalid timeslot |
| `Timeslots.TimeslotAllocator.ConfigureCarriers` | crates/tetra-core/src/timeslot_alloc.rs:75-95 | repeats dropped, rows moved with their carrier |
| `Timeslots.TimeslotAllocator.AllocateAnySlot` | crates/tetra-core/src/timeslot_alloc.rs:105-120 | the nested scan finds the first free slot |
| `Timeslots.TimeslotAllocator.ReserveSlot` | crates/tetra-core/src/timeslot_alloc.rs:127-141 | the result and new state for every slot |
| `Timeslots.TimeslotAllocator.ReleaseSlot` | crates/tetra-core/src/timeslot_alloc.rs:148-167 | the result and new state for every slot; only the owner frees |
| `Timeslots.TimeslotAllocator.SlotOwner` | crates/tetra-core/src/timeslot_alloc.rs:176-180 | the owner of an allocatable slot, none otherwise |
| `Timeslots.TimeslotAllocator.FreeSlotCount` | crates/tetra-core/src/timeslot_alloc.rs:195-205 | the number of free allocatable slots |

## Left out

- Sockets, threads, the dashboard and the other network services: input and output only.
- UMAC, LMAC, MM, CMCE, FCS computation and the foreign TETRA codec: they appear as the environment's steps.
- LLC receive side: the code keeps no receive variable, so duplicates are passed up; exactly-once delivery is not claimed.
- Malformed LLC PDUs and failed frame checks are dropped by the source without effect and appear only as `fcsOk`.
- LLC messages keep SSI, carrier, PDU kind and numbers, SDU, stealing flag and link identifier; the other fields of a request, the channel allocation and the reporter of an unacknowledged message are passed through unread and left out.
- LlcAir.NoFalseAck: peers that retransmit BL-ADATA are excluded, because a repeated old N(R) breaks the first-in-first-out order of acknowledgements.
- BitBuffers.BitBuffer.ReadBitsAtUnchecked: 64-bit shifts and ors on values are modelled as the arithmetic they compute (`x << 8 | b` as `256 x + b`), byte operations as bit-vector operations; the accumulated value stays below 2^64.
- BitBuffer's xor_bit, into_bitvec, read_bits_into_slice, write_zeroes, write_ones, the window setters for start and end, and the string conversions: easy, or not bounded by the window.
- TypedCodec.RunWriter, TypedCodec.RunParser: an element writer or parser is any function between values and bits; one that fails half-way is modelled as failing without saying where the cursor is.
- TypedCodec.WriteTail, TypedCodec.WriteType2Generic, TypedCodec.WriteType2Struct, TypedCodec.WriteType3Struct, TypedCodec.WriteType3Generic, TypedCodec.WriteType34HeaderGeneric, TypedCodec.WriteType4Struct: how far the end of a growing buffer moves is stated when the write stays in the window or starts at its end; for one that starts before the end and crosses it, only that everything written is there.
- TypedFields.TailRoundTrip: an opaque type 4 element is taken as absent when written, because the source has no writer for a present one (`write_type4_todo` stops there); how a present one is read is `TypedFields.TailReadOpaquely`.
- The field names in parse errors; the errors only an element parser gives are told apart by a number.
- SIP headers other than branch and CSeq number, tags, contacts, credentials, SDP, inbound admission checks, media state and the reverse index from timeslots to calls.
- Termination of a dialog challenged twice: it needs assumptions about CMCE.
- The µ-law transcoder, the codec frame packing and the downlink backlog.
- Registry: `get_subscriber_mut` hands out a mutable subscriber; only the operations listed are modelled.
- The single-carrier forms of the allocator's operations, which pass the first carrier on.
