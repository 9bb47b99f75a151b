# ESPCars, modelled and proved in Dafny

ESPCars is ESPHome firmware and host tooling for CAN, LIN and vehicle diagnostics. This project models its
protocol logic and proves what that logic is for, for every input, every run and every interleaving the model
allows. `dafny verify dfyconfig.toml` checks all of it.

Each component has the same build. The state is a value with one function per operation or atomic step; the
classes and loops of the source are methods proved to compute those functions; the main results are lemmas
about runs of them. Where a component meets an environment (the CAN driver, a CCP slave, the wire, a device that
drives away, a database that goes down), the environment is part of the step relation and may do anything its
contract allows.

## What is proved

* **CAN gateway, slots and queue** (`SlotPool`, `OutstandingTracker`, `GatewayPort`, `GatewayRuns`,
  `GatewayOrphans`, `GatewayForwarding`, `GatewayEdges`). Receive, transmit-done and state-change interrupts, the loop's two critical sections and an
  injection caught between its steps, against a driver that keeps the contract stated beside the tracker. In
  every run no slot the driver still owns is released or refilled and none is released twice, the tracker never
  overflows, the bus sees exactly the frames handed over that completed, each is what the rules make of a frame received
  or was injected, and all counters balance.
* **CAN gateway, patches** (`PatchRules`, `SignalGeometry`, `SignalExtract`, `RulePatch`, `PatchBoot`,
  `PatchConfig`, `PatchCrc`, `PatchStores`, `PatchOverlap`). The CRC repair keeps the syndrome for every CRC-8;
  signals written at run time read back from every frame as last committed; no undeclared bit is ever touched;
  what configuration accepts is exactly what these results need, and the two sides meet in one statement about
  every run of setters.
* **CAN gateway, rings and observation** (`SnapshotRing`, `ObserveRing`, `SubscribedSet`, `Observation`,
  `ObservationRuns`). Both lock-free rings with every load, store and piece of a copy as its own step;
  binary-searched subscriptions; exactly-once, in-order dispatch, put together into one statement from the
  frame's arrival to the subscribers' calls.
* **CAN gateway, recovery** (`RecoveryBackoff`). Pacing across wraps of the millisecond clock.
* **ISO-TP** (`IsoTpCodec`, `IsoTpDecoding`, `IsoTpTransfer`, `IsoTpNode`, `IsoTpLink`, `IsoTpProgress`,
  `IsoTpClock`, `IsoTpTimeouts`, `IsoTpSends`, `UdsTap`, `UdsTapEvents`), after section 9.6 of ISO 15765-2:2016. Two nodes over two lossless links: the message arrives byte for byte
  under every schedule, nothing deadlocks on clocks that wrap and never run backwards, the frame count is exact.
  A peer that falls silent, refuses or sends out of turn is reported exactly once and when it is due, and the
  host tool's passive reassembler hands on the same messages as the firmware's receiver.
* **Collector** (`CollectorSpec`, `CollectorSafety`, `CollectorHistory`, `CollectorProgress`, `Collector`). One chunk name over any
  number of passes, each a list of durable states that a crash may cut anywhere, with cut bodies, ignored ranges
  and swapped cards: what is confirmed is archived, and what can be fetched is fetched and confirmed.
* **Decode loader** (`LoaderSpec`, `LoaderRows`, `LoaderSafety`, `LoaderReversion`, `Loader`). A run as the list
  of statements it sends; a cut run is a prefix of that list, and files arrive between runs.
* **CCP 2.1 master** (`CcpHub`, `CcpDaq`, `CcpProgram`, `CcpSampling`, `CcpReads`, `CcpSession`, `CcpMemory`,
  `CcpTransfers`, `CcpWedge`, `CcpWrites`, `CcpMaster`).
  Stored callbacks become a named continuation run by one function. Any number of application handlers may call
  back into the hub before it runs.
* **LIN** (`LinFrames`, `LinResponses`, `LinNode`, `LinReception`, `LinSelfEcho`, `LinHandler`, `LinSchedule`), with sections
  2.3.1.3 and 2.3.1.5 of the LIN 2.2A specification for identifiers and checksums. A node
  accepts exactly the intact responses of any wire, and a master alone on its bus hears everything it says.
* **Catalog compiler** (`ArrayFolding`, `UniqueNames`). Folding is invertible and finds exactly the qualifying
  runs; naming is injective or refuses for a stated reason.

`Words`, `Sequences`, `Arithmetic`, `Bits` and `Binary` hold what these share.

## Where the code and what is said of it differ

The model follows the code. Each item below is proved with a concrete run and with the exact condition under
which the promised behaviour holds.

* **Orphans can silence a port.** `gateway_core.h:331-353` promises that orphans cannot starve a port. The loop
  reclaims the halted frame only when it sees an edge into bus-off. If a port recovers and fails again between
  two passes, both passes read bus-off and the new orphan stays (`CycleAddsOrphan`). Enough of these fill the
  queue depth with orphans; from then on nothing is handed over, so no completion comes that would free them
  (`MuteForever`, `MuteIsReachable`). Leaving bus-off is clean exactly when the loop has freed the halted frame
  or nothing was tracked (`ExitIsCleanIff`), and a loop that keeps up never leaves one behind
  (`NoOrphansWhileLoopKeepsUp`).
* **Bus-off recovery by degrees.** The delay is to return to its base once the bus has been healthy for ten seconds
  (`gateway_core.h:622-626`). The loop starts that period only when it reads error-active right after bus-off: a
  port that does so has the base delay after ten seconds (`StableBusResets`), one that is read as degraded in
  between keeps its delay for as long as it stays up (`DegradedKeepsDelay`).
* **Ring sizes.** `ObserveRing` indexes with free-running 32-bit counters modulo its size. It keeps its order for
  ever exactly when the size divides 2^32 (`FifoForeverIff`). The user guide allows 4 to 128 and shows 48
  (`docs/can_gateway-user-guide.md:82,551`), for which a pop returns a wrong record after 2^32 of them.
* **Byte setter and signals.** `RulePatch::set_byte` writes all cleared mask bits of its byte, those of an
  enabled signal included. The signal survives exactly when the written value agrees with it
  (`ByteSetterKeepsIff`); configuration accepts rules where it need not (`HalvesAccepted`, `SignalLost`).
* **ISO-TP, stall after an abort.** The stall timer is to measure how long the CAN layer refuses a frame
  (`isotp_core.h:439-443`). `abort` leaves the offer pending, so the next message, if it is offered for the first
  time only after the stall time, fails although nothing was refused (`StaleOfferFails`); exactly then
  (`FirstPollStallsIff`).
* **LIN, checksum of zero.** A receiver is to accept what sums to 0xFF. Zero has two forms in that sum, and the
  node compares with the one a publisher computes: a response that sums to 0xFF is rejected exactly when its
  checksum byte is 0xFF over a sum that is not zero (`RightIffCloses`, `ClosedButRejected`).
* **Collector, complete partials.** A partial as long as the index says is taken for complete without a download
  (`sdlog_collect.py:770-774`). That is right exactly when the index has the card's length (`ShortcutIff`); with
  a shorter one, two passes confirm a short copy (`StaleIndexConfirmsShortCopy`). `ConfirmIsSafe` therefore asks
  for a right index whenever that branch is taken.
* **Collector, torn chunks.** Two equal full fetches in a row are promised before a torn chunk is taken
  (`sdlog_collect.py:856-891`). The note that the last fetch is compared with is about the last fetch noted,
  which need not be the last full fetch. Three runs from an empty disk end in a confirm of `a` although the full
  fetch before it was another: `a`, `b` cut between keeping and noting, `a` (`TakenAfterCut`); `a`, `x` judged
  bad, `a`, without any cut (`TakenAfterBad`); `a`, `b` cut before its verdict, `a` (`TakenAfterNoVerdict`). The
  two are equal exactly when the fetch before was noted, or was left without verdict or note and happens to equal
  the note (`TornTakenIff`); in runs without cuts exactly when it was not judged bad (`UncutTakenIff`).
* **Loader, reverted catalog.** Markers survive the bulk delete at the start of a run. If a run dies right after
  it and the previous catalog is taken up again, every file counts as done and its rows stay lost
  (`RevertedCatalogLosesRows`). For a run cut after any number of statements, going back ends exact exactly when
  each chunk has a file already marked again, or has in every cleared table just the rows the old catalog expects
  (`GoingBackIff`, a condition on the archive and the number of statements).
* **CCP, unsendable commands.** `read_memory` records what it owes before its first command is sent. If that
  command, or a later one of the chain, cannot be sent, every further read is refused, exactly until a command of
  a memory write fails (`ReadAcceptedIff`, `ChainAbandonedIff`, `WedgedAtOnce`, `WedgedUntilAWriteFails`). The port need not refuse anything: a response handler's own command takes the slot before
  the chain goes on (`TakenByAHandler`). A write whose later command cannot be sent is not told at that point.
  Until another write replaces it, it is told `false` exactly when a later memory read fails (`AbandonedToldIff`,
  `ToldByALaterRead`), and `true` never.
* **CCP, nested writes.** A write asked for by a handler of another write's answer reports success although its
  data was not sent (`SuccessOfNothing`); a success is true exactly for writes taken in good order
  (`SuccessMeansSentIff`).
* **CCP, DAQ size gate.** Layout sizes are added in sixteen bits, so a read of 258 fields passes the seven-byte
  gate (`SizeGateWraps`). The fields fit one frame exactly when the size does not wrap (`OffsetsExact`); a read
  for which it does is set up and never ends well (`DaqLifecycle`, `CarriedFits`).
* **Catalog, naming.** The error of rule (c) says that two fields share a presentation qualifier and a position.
  A factory name that reads like a positional name raises it as well (`BlockedWithoutSharing`); `Blocked` is the
  exact condition.

## Model

| member | source | states |
|---|---|---|
| IsoTpLink.DeliveredIsTheMessage | components/isotp/isotp_core.h:508-583 | over every run of polls, refused injections and in-order deliveries inside the timeouts, the receiver delivers nothing but the message given to `begin`, at most once, and neither side reports an error |
| IsoTpLink.ExactFrameCount | components/isotp/isotp_core.h:363-414 | a finished transfer used exactly 1 + ceil((size - first) / consecutive) data frames and 1 + floor((nCF - 1) / BS) flow control frames, one for a block size of 0, or one single frame and none |
| IsoTpLink.ToReceiverInv | components/isotp/isotp.cpp:53-76 | delivering a data frame keeps the transfer's invariant, and whenever the receiver produces a flow control frame the one-slot pending frame is free, so it is never overwritten |
| IsoTpLink.ToSenderInv | components/isotp/isotp_core.h:395-414 | a flow control frame reaches the sender only while it waits for one, and sets it sending again |
| IsoTpLink.StepInv | components/isotp/isotp.cpp:77-106 | every step of the composed system keeps the invariant that relates both block counters, both sequence numbers, the frames in flight and the flow control frames produced |
| IsoTpClock.Progress | components/isotp/isotp.cpp:77-106 | in every unfinished reachable state in which no timer has run out, some step at the same time or at most the separation time later lowers the measure and leaves every timer running: no deadlock, with clocks that wrap and never run backwards |
| IsoTpClock.NeverStuck | components/isotp/isotp.cpp:77-106 | if the receiver waits longer than the separation time it asks for, every run that is on time can be continued, on time and bounded by the measure, until the message is delivered |
| IsoTpClock.ThenInv | components/isotp/isotp_core.h:313-414 | over every timed step the separation timer and the receiver's frame timer stand for the real times at which frames were sent and taken |
| IsoTpProgress.StepNeverRaises | components/isotp/isotp.cpp:77-106 | no step, refused or not, raises the measure |
| IsoTpSends.SendIsDelivered | components/isotp/isotp.cpp:108-116 | between two nodes at rest, whatever transfer was before, `send` accepts the message and can be brought to its delivery, told as sent once and without an error |
| IsoTpSends.EndsOnce | components/isotp/isotp.cpp:77-106 | in every run, in time or not, the transfer under way is told as sent or as failed exactly once if it ends, and nothing is told that did not end |
| IsoTpSends.LoopSendsEight | components/isotp/isotp.cpp:88-106 | a loop pass sends eight consecutive frames when neither separation time nor block size holds them back and the CAN layer takes all |
| IsoTpSends.IgnoredAreCounted | components/isotp/isotp_core.h:508-573 | frames that do not decode and consecutive frames of no message are counted and change nothing else |
| IsoTpTimeouts.SilentPeer | components/isotp/isotp_core.h:326-331 | a message whose first frame went out at some time to a peer that sends no flow control: before N_Bs is over nothing happens, and the first loop pass from then on reports one timeout and leaves the sender ready for the next message |
| IsoTpTimeouts.UnansweredTimesOut | components/isotp/isotp_core.h:326-331 | the same at every wait for flow control, also behind a block, over every run of polls and other frames |
| IsoTpTimeouts.WaitRestarts | components/isotp/isotp_core.h:407-409 | a wait starts N_Bs afresh and changes nothing else |
| IsoTpTimeouts.UnaskedIgnored | components/isotp/isotp_core.h:395-397 | flow control that nobody waits for changes nothing |
| IsoTpTimeouts.OverflowEnds | components/isotp/isotp_core.h:410-424 | an overflow is reported exactly once, by the next loop pass, and leaves the sender ready |
| IsoTpTimeouts.UnfinishedTimesOut | components/isotp/isotp_core.h:586-597 | a reception whose sender falls silent stands until N_Cr is over; the first loop pass from then on reports one timeout and drops it |
| IsoTpTimeouts.WrongSequenceEnds | components/isotp/isotp_core.h:539-573 | a consecutive frame out of turn is reported once, and nothing is delivered until another message begins |
| IsoTpTimeouts.TooLongIsRefused | components/isotp/isotp_core.h:518-538 | a first frame beyond the buffer is answered with overflow, at once or when the CAN layer takes it, and nothing is delivered until another message begins |
| IsoTpTimeouts.RefusedTimesOut | components/isotp/isotp_core.h:436-455 | a frame that the CAN layer goes on refusing: nothing happens before the stall time is over since its first offer, and the first loop pass from then on reports one stall and leaves the sender ready |
| IsoTpTimeouts.RefusedFromTheStart | components/isotp/isotp_core.h:436-455 | so for a message refused from its first frame on |
| IsoTpTimeouts.FirstPollStallsIff | components/isotp/isotp_core.h:291-312 | the first poll of a message fails as stalled, although nothing was refused, exactly when an aborted transfer has left an offer of the same kind and the stall time is over since `begin` |
| IsoTpTimeouts.StaleOfferFails | components/isotp/isotp_core.h:304-309 | such a run: offered, aborted, begun again, polled late |
| IsoTpTimeouts.AbortedIsReady | components/isotp/isotp_core.h:304-312 | an aborted sender is ready at once and none of its timers ever fires |
| IsoTpTimeouts.StepIsValid | components/isotp/isotp.cpp:41-107 | every loop pass and every frame keeps what both machines need |
| IsoTpDecoding.DecodesIff | components/isotp/isotp_core.h:204-260 | a frame of any length and contents decodes to something exactly when, behind the address, it begins with what that is sent as and the addressing leaves room for it, and is invalid exactly when it begins with nothing of the kind |
| IsoTpDecoding.FrameAround | components/isotp/isotp_core.h:143-155 | every frame is the address, the body, and padding bytes up to eight if padding is on |
| IsoTpDecoding.SeparationIsLongEnough | components/isotp/isotp_core.h:108-120 | the separation time kept is the least whole number of milliseconds not below the one asked for; reserved codes are the maximum |
| IsoTpCodec.SingleRoundTrip | components/isotp/isotp_core.h:156-166 | a single frame decodes to its payload, whatever the padding, if both ends agree on extended addressing |
| IsoTpCodec.FirstRoundTrip | components/isotp/isotp_core.h:167-179 | a first frame is eight bytes and decodes to the message length and its first bytes |
| IsoTpCodec.ConsecutiveRoundTrip | components/isotp/isotp_core.h:180-190 | a consecutive frame decodes to its sequence number and its data followed by padding at most |
| IsoTpCodec.FlowControlRoundTrip | components/isotp/isotp_core.h:191-203 | a flow control frame decodes to the status, block size and raw STmin it was made from |
| IsoTpCodec.DecodePci | components/isotp/isotp_core.h:204-260 | a decoded single or first frame has a payload within its capacity and a length the frame type allows; anything else is invalid |
| IsoTpCodec.FinishFrame | components/isotp/isotp_core.h:143-155 | puts the address prefix in front of what was written and pads behind it |
| IsoTpCodec.EncodeSingleFrame | components/isotp/isotp_core.h:156-166 | refuses exactly sizes outside 1..capacity and else writes the specified frame; a refusal changes nothing |
| IsoTpCodec.EncodeFirstFrame | components/isotp/isotp_core.h:167-179 | writes the first frame of the message and says how many bytes it carries |
| IsoTpCodec.EncodeConsecutiveFrame | components/isotp/isotp_core.h:180-190 | writes the next consecutive frame of the bytes not yet sent |
| IsoTpCodec.EncodeFlowControl | components/isotp/isotp_core.h:191-203 | writes the specified flow control frame |
| IsoTpTransfer.RefusedFrameIsReoffered | components/isotp/isotp_core.h:313-394 | after a refused offer the next offer is the identical frame; the only other outcomes are waiting for the separation time and the recorded stall |
| IsoTpTransfer.TxTransfer.Begin | components/isotp/isotp_core.h:289-303 | accepts exactly when idle and the size is 1..capacity; then the message is copied and the state is that of a fresh transfer |
| IsoTpTransfer.TxTransfer.Abort | components/isotp/isotp_core.h:304-312 | ends a running transfer with the aborted error and leaves an idle one alone |
| IsoTpTransfer.TxTransfer.Poll | components/isotp/isotp_core.h:313-362 | computes the send machine's next action, frame and state for every state and clock reading; IsoTpTimeouts and IsoTpSends say over runs what each phase comes to |
| IsoTpTransfer.TxTransfer.ConfirmSent | components/isotp/isotp_core.h:363-394 | moves position, sequence number and block counter on only once the frame is on the bus |
| IsoTpTransfer.TxTransfer.OnFlowControl | components/isotp/isotp_core.h:395-424 | takes continue, wait and overflow only while waiting for flow control |
| IsoTpTransfer.RxTransfer.OnFrame | components/isotp/isotp_core.h:508-584 | computes the receive machine's action, answer and state for every frame |
| IsoTpTransfer.RxTransfer.OnFirst | components/isotp/isotp_core.h:518-538 | a first frame beyond the buffer is answered with overflow, any other starts a reception |
| IsoTpTransfer.RxTransfer.OnConsecutive | components/isotp/isotp_core.h:539-573 | appends in-order data, ends on a wrong sequence number, completes at the announced length and grants the next block at a block's end |
| IsoTpTransfer.RxTransfer.Poll | components/isotp/isotp_core.h:586-597 | fails a reception whose next consecutive frame is overdue |
| IsoTpTransfer.RxTransfer.Reset | components/isotp/isotp_core.h:502-507 | drops a partial message |
| IsoTpNode.OfferIsConfirmable | components/isotp/isotp_core.h:363-394 | whatever a poll offers may be confirmed, and confirming it keeps the machine's own invariant |
| IsoTpNode.IsoTpProtocol.Send | components/isotp/isotp.cpp:108-116 | starts a transfer exactly when the send machine accepts it |
| IsoTpNode.IsoTpProtocol.InjectFrame | components/isotp/isotp.cpp:117-120 | a frame reaches the bus exactly when the CAN layer accepts it |
| IsoTpNode.IsoTpProtocol.OnFrame | components/isotp/isotp.cpp:41-76 | routes flow control to the sender and everything else to the receiver, and keeps a refused flow control frame |
| IsoTpNode.IsoTpProtocol.Loop | components/isotp/isotp.cpp:77-107 | retries the kept flow control frame, polls the receiver, then offers at most eight frames, stopping at the first refusal |
| UdsTap.SameMessages | script/sdlog_uds.py:320-378 | for every trace of frames of 0 to 8 bytes the passive reassembler hands on exactly the messages the firmware's receiver delivers, through wrong sequence numbers, malformed frames and interruptions |
| UdsTap.AgreeStep | script/sdlog_uds.py:320-378 | one frame keeps the two partial messages equal, and a sequence event is recorded exactly when the receiver fails |
| UdsTap.UdsChunk.Feed | script/sdlog_uds.py:320-378 | the reassembler's state after any frame |
| UdsTap.UdsChunk.Abandon | script/sdlog_uds.py:380-385 | a partial message interrupted by a new one becomes an incomplete event |
| UdsTap.UdsChunk.Finish | script/sdlog_uds.py:386-393 | a message cut by the end of the chunk is counted and dropped |
| UdsTapEvents.EveryStartIsAccounted | script/sdlog_uds.py:339-385 | over every trace as many messages are handed on, reported as broken off or still open as were begun, and every malformed frame is counted |
| UdsTapEvents.StartReported | script/sdlog_uds.py:339-353 | a frame that begins a message reports exactly the message it interrupts |
| UdsTapEvents.TurnReported | script/sdlog_uds.py:362-378 | a frame out of turn reports what was had and what was expected, and ends the message; one in turn reports nothing |
| UdsTapEvents.StrayStretch | script/sdlog_uds.py:355-361 | a stretch of consecutive frames of no message is reported once, by its first frame, and not at all behind a message reported as broken |
| UdsTapEvents.CutAtTheStart | script/sdlog_uds.py:356-357 | consecutive frames before the first message of a trace are counted and not reported |
| GatewayRuns.SlotOwnership | components/can_gateway/can_gateway.cpp:596-836 | in every run of receive, transmit-done, state-change, loop and injection steps under the driver's contract: the tracker is the orphans followed by the driver's queue, without duplicates and within the depth; a slot is occupied exactly when it is tracked or held by the injection in progress; what the driver refers to still holds what was handed over |
| GatewayRuns.Conservation | components/can_gateway/gateway_core.h:413-448 | in every run the bus sees exactly the frames handed over whose completion succeeded, in order and unaltered; hand-offs equal successes plus tx_fail plus tracked; every received frame is counted in exactly one route counter |
| GatewayRuns.CompletionIsTracked | components/can_gateway/can_gateway.cpp:825-828 | every completion finds its slot in the tracker, behind exactly the orphans |
| GatewayRuns.HandOffSucceedsIff | components/can_gateway/can_gateway.cpp:326-334 | a willing driver gets the frame exactly when the port is not in bus-off and orphans plus queue are below the depth |
| GatewayForwarding.ReceivedIsCarried | components/can_gateway/can_gateway.cpp:630-715 | a receive interrupt hands a frame over exactly when one was received, its first rule does not drop it and there is room; length and remote flag are those received, a data frame's length at most eight; without a patch identifier, type and all bytes are as received, with one each byte is the received one under the masks; and exactly one counter says which it was |
| GatewayForwarding.EveryFrameIsExplained | components/can_gateway/can_gateway.cpp:659-715 | in every run from power-up each frame handed to the driver, and so each frame on the bus, was injected or is what may leave for a frame received, by the rules in force then |
| GatewayEdges.RecoveriesAreCounted | components/can_gateway/can_gateway.cpp:354-380 | in every run the port's state is the one reported last, and its recoveries are the ways from bus-off to error-active that loop passes have seen |
| GatewayEdges.InjectedIff | components/can_gateway/can_gateway.cpp:267-350 | with a willing driver an uninterrupted injection goes through exactly when the bus is alive, an own slot is free and the queue has room, orphans included; otherwise the port is left as it was, but for the contents of a free slot |
| GatewayRuns.StepInv | components/can_gateway/can_gateway.cpp:354-407 | every enabled step keeps the invariant, the loop's reclaim included: it never frees a slot the driver still owns |
| GatewayOrphans.NoOrphansWhileLoopKeepsUp | components/can_gateway/can_gateway.cpp:382-398 | as long as the loop reclaims before the port leaves each bus-off, a live port tracks exactly the driver's queue |
| GatewayOrphans.ExitIsCleanIff | components/can_gateway/can_gateway.cpp:382-398 | leaving bus-off leaves no orphan exactly when the loop has freed the halted frame or nothing was tracked |
| GatewayOrphans.MuteForever | components/can_gateway/gateway_core.h:331-353 | once orphans fill the queue depth of a live port, no run without a new bus-off ever hands a frame over again |
| GatewayOrphans.CycleAddsOrphan | components/can_gateway/can_gateway.cpp:354-407 | a bus-off that begins and ends while the loop sees bus-off on both passes adds an orphan |
| GatewayOrphans.FullQueueCanGoMute | components/can_gateway/can_gateway.cpp:354-407 | from a full queue and an unseen recovery there is a legal run to a mute port although the loop runs a pass in every bus-off |
| GatewayOrphans.MuteIsReachable | components/can_gateway/can_gateway.cpp:354-407 | the smallest instance, from power-up with a depth of one |
| GatewayPort.GatewayPort.HandleRx | components/can_gateway/can_gateway.cpp:632-657 | the receive interrupt's state for a disabled gateway, a destination in bus-off, an exhausted pool, an empty driver and a routed frame, whose contents GatewayForwarding.ReceivedIsCarried states |
| GatewayPort.GatewayPort.RouteFrame | components/can_gateway/can_gateway.cpp:659-715 | a claimed slot is filtered, handed over and tracked, or given back and counted as full; GatewayForwarding.ReceivedIsCarried says what it then holds |
| GatewayPort.GatewayPort.HandOver | components/can_gateway/can_gateway.cpp:695-715 | the filled slot goes to the driver and the tracker, or back to the pool when the queue is full or the driver refuses |
| GatewayPort.GatewayPort.HandleTxDone | components/can_gateway/can_gateway.cpp:775-829 | frees the completed slot and everything older, counts failures, and ignores an untracked completion |
| GatewayPort.GatewayPort.PopCompleted | components/can_gateway/can_gateway.cpp:825-828 | removes the completed entry and what is older; the occupancy change says whether it was tracked |
| GatewayPort.GatewayPort.ReclaimOrphan | components/can_gateway/can_gateway.cpp:831-836 | frees an orphan's slot and counts it as failed |
| GatewayPort.GatewayPort.HandleStateChange | components/can_gateway/can_gateway.cpp:838-841 | stores the new bus state and nothing else |
| GatewayPort.GatewayPort.LoopEdge | components/can_gateway/can_gateway.cpp:354-380 | acts once per change of the state the loop sees |
| GatewayPort.GatewayPort.LoopReclaim | components/can_gateway/can_gateway.cpp:382-398 | frees the tracker's head at most once per bus-off the loop sees |
| GatewayPort.GatewayPort.InjectClaim | components/can_gateway/can_gateway.cpp:267-293 | claims the lowest free inject slot, unless in bus-off |
| GatewayPort.GatewayPort.InjectHandOff | components/can_gateway/can_gateway.cpp:326-343 | bus-off check, depth gate, transmit and tracking as one step |
| GatewayPort.GatewayPort.InjectFrame | components/can_gateway/can_gateway.cpp:267-352 | accepted exactly when not in bus-off, a slot is free, the depth allows it and the driver takes it; a refusal gives the slot back |
| SlotPools.FirstFree | components/can_gateway/gateway_core.h:296-306 | the lowest free slot, or none exactly when all are used |
| SlotPools.SlotPool.Acquire | components/can_gateway/gateway_core.h:296-306 | claims the lowest free slot and changes no other |
| SlotPools.SlotPool.Release | components/can_gateway/gateway_core.h:307 | frees the slot and changes no other |
| SlotPools.SlotPool.InUse | components/can_gateway/gateway_core.h:314-321 | counts the used slots |
| OutstandingTrackers.OutstandingTracker.Push | components/can_gateway/gateway_core.h:360-369 | appends while there is room and else changes nothing |
| OutstandingTrackers.OutstandingTracker.Complete | components/can_gateway/gateway_core.h:371-386 | removes the oldest match and everything older, which it reports in order; without a match nothing changes |
| OutstandingTrackers.OutstandingTracker.Find | components/can_gateway/gateway_core.h:371-386 | the position of the oldest match in the circular buffer |
| OutstandingTrackers.OutstandingTracker.PopOldest | components/can_gateway/gateway_core.h:371-386 | drops and reports the oldest entries in order |
| OutstandingTrackers.OutstandingTracker.ReclaimHead | components/can_gateway/gateway_core.h:388-395 | takes the oldest entry, if there is one |
| PatchRules.SyndromeSurvives | components/can_gateway/gateway_core.h:256-276 | for every CRC the sender may use over the covered bytes, a patch that spares the CRC byte leaves the frame's syndrome as it was |
| PatchRules.CrcDelta | components/can_gateway/gateway_core.h:115-128 | for every polynomial, initial value, final xor, leading data-ID and length: the CRC of b is the CRC of a xor the linear CRC of a xor b |
| PatchRules.CrcLinear | components/can_gateway/gateway_core.h:129-138 | the CRC register is linear over xor |
| PatchRules.ShortFrameKeepsCrc | components/can_gateway/gateway_core.h:154-167 | a frame too short for the rule's coverage keeps its CRC byte as received |
| PatchRules.Crc8Linear | components/can_gateway/gateway_core.h:129-138 | the two nested loops compute the CRC of the bytes |
| PatchRules.FixCrcInPlace | components/can_gateway/gateway_core.h:154-167 | repairs the CRC byte in place and changes nothing else; no difference means no repair |
| PatchRules.ApplyPatchInPlace | components/can_gateway/gateway_core.h:240-252 | rewrites identifier and payload below the length; a remote frame keeps its payload |
| PatchRules.MatchRuleLoop | components/can_gateway/gateway_core.h:229-235 | finds the first matching rule |
| PatchRules.MatchRule | components/can_gateway/gateway_core.h:229-235 | the returned rule matches and none before it does; the length means none matches |
| PatchRules.ProcessFrameInPlace | components/can_gateway/gateway_core.h:256-276 | filters, patches with CRC repair, or passes the frame on |
| PatchCrc.CrcSurvivesEveryRun | components/can_gateway/__init__.py:571-636 | for a rule that configuration accepts, after every run of runtime setters and commits a covered frame leaves with the syndrome it came with |
| SnapshotRing.OnlyWholeSnapshots | components/can_gateway/gateway_core.h:473-517 | with the producer stepping anywhere inside the consumer's piecewise copy, only whole pushed snapshots are returned, with strictly increasing tickets, and missed plus returned equals last_seen |
| SnapshotRing.ValidatedIsWhole | components/can_gateway/gateway_core.h:499-512 | a copy that passes both stamp checks is the snapshot pushed under its ticket |
| SnapshotRing.FailureMeansLapped | components/can_gateway/gateway_core.h:499-515 | an attempt fails only if the producer went all the way round since the head was read |
| SnapshotRing.GivesUpOnlyAfterAll | components/can_gateway/gateway_core.h:490-517 | in every run a read that ends without a snapshot has found nothing new or failed in every one of its attempts |
| SnapshotRing.SnapshotRing.Push | components/can_gateway/gateway_core.h:478-485 | an uninterrupted push is a run of the atomic steps and publishes the snapshot |
| SnapshotRing.SnapshotRing.ReadLatest | components/can_gateway/gateway_core.h:490-517 | an uninterrupted read is a run of the atomic steps and returns the newest snapshot exactly when it has not been seen |
| ObserveRing.PoppedThenQueued | components/can_gateway/gateway_core.h:765-785 | for every interleaving of push's and pop's atomic steps, popped records followed by the ring's contents are the accepted pushes in order |
| ObserveRing.FifoForeverIff | components/can_gateway/gateway_core.h:756-757 | the ring keeps its order for ever exactly when its size divides 2^32 |
| ObserveRing.GuideSizeBreaks | docs/can_gateway-user-guide.md:551 | the user guide's example size 48 does not keep the order for ever; 32 does |
| ObserveRing.BrokenRun | components/can_gateway/gateway_core.h:765-785 | for every other size, a run of just over 2^32 records whose last pop returns the wrong one |
| ObserveRing.ObserveRing.Push | components/can_gateway/gateway_core.h:765-773 | an uninterrupted push is a run of the atomic steps; refused exactly when full, without changing anything |
| ObserveRing.ObserveRing.Pop | components/can_gateway/gateway_core.h:777-785 | an uninterrupted pop is a run of the atomic steps and returns the head entry, or none exactly when empty |
| SubscribedSets.SubscribedSet.Insert | components/can_gateway/gateway_core.h:819-841 | refused exactly when the key is new and the set is full; else the key is a member and nothing else changed |
| SubscribedSets.SubscribedSet.Contains | components/can_gateway/gateway_core.h:843-859 | binary search answers membership of the inserted keys |
| SubscribedSets.KeyIdentifies | components/can_gateway/gateway_core.h:813-815 | for identifiers below 2^31 the key determines identifier and frame type |
| ObservationRuns.EndToEnd | components/can_gateway/can_gateway.cpp:484-495 | over every interleaving of the ring's single steps and every key set that setup may end with: exactly the arrived frames that some subscriber matches are offered, save those whose key was dropped, each is taken or counted as overflow, and each subscriber has been called, in order, for exactly its matching records among those dispatched |
| ObservationRuns.BytesRoundTrip | components/can_gateway/gateway_core.h:705-713 | a record copied through the ring byte by byte is the frame recorded |
| Observation.ObservationPlane | components/can_gateway/can_gateway.cpp:484-495 | over any run of whole pushes and drains popped then queued records are the accepted ones, every wanted frame is accepted or counted as overflow, and each subscriber was called, in order, for exactly the popped records it matches |
| Observation.EachSubscriberGetsItsOwn | components/can_gateway/gateway_core.h:892-898 | dispatching a list of records calls each subscriber for exactly its matching records, once each and in order |
| Observation.InRegistrationOrder | components/can_gateway/gateway_core.h:892-898 | the calls for one record come in registration order |
| Observation.WantedIffMatched | components/can_gateway/can_gateway.cpp:718-730 | the interrupt's membership test answers exactly whether some subscriber matches the frame |
| Observation.ObservingPort.constructor | components/can_gateway/can_gateway.cpp:464-482 | the key set holds the subscribers' keys, all of them when they fit |
| Observation.ObservingPort.ObserveFrame | components/can_gateway/can_gateway.cpp:718-737 | records a wanted frame with the bytes beyond its length cleared, or counts the overflow |
| Observation.ObservingPort.DrainObservations | components/can_gateway/can_gateway.cpp:484-495 | takes at most the limit of records, each dispatched before the next is taken |
| Observation.ObservingPort.Dispatch | components/can_gateway/gateway_core.h:892-898 | calls the matching subscribers in registration order |
| PatchStores.FrameBetweenStores | components/can_gateway/gateway_core.h:67-109 | a frame between any two stores of a setter: each signal reads back as the raw value last committed modulo 2^len, or as received when disabled, and undeclared bits are untouched |
| PatchStores.SeenIsCommitted | components/can_gateway/gateway_core.h:71-95 | however far seeding, stamping or a commit has got, the interrupt sees the patch that whole setters would have published; a commit counts from the store that flips the index |
| PatchStores.StoresApply | components/can_gateway/can_gateway.h:94-149 | the stores of a setter, run to the end, do what the setter does in one step |
| RulePatches.FramesSeeTheLastCommit | components/can_gateway/can_gateway.h:94-149 | after every run of whole setters and commits each signal within the frame reads back as the raw value last committed modulo 2^len, or as received when disabled, and undeclared bits are untouched |
| RulePatches.RunRefines | components/can_gateway/gateway_core.h:67-109 | over every run the two banks show what a plain list of staged and published values says |
| RulePatches.FencedRun | components/can_gateway/can_gateway.h:94-149 | whatever is staged, the value bits stay within the cleared mask bits and those within the declared bits |
| RulePatches.FieldReadBack | components/can_gateway/gateway_core.h:240-252 | a patched frame's field reads back as the setting says |
| RulePatches.UndeclaredBitsUntouched | components/can_gateway/can_gateway.h:105-124 | no undeclared bit of any frame is changed |
| RulePatches.SignalSetAt | components/can_gateway/can_gateway.h:105-124 | what staging a signal does to every single bit |
| RulePatches.InsideIff | components/can_gateway/can_gateway.h:105-124 | the setter's answer is whether the whole field was declared |
| RulePatches.ByteSetterKeepsIff | components/can_gateway/can_gateway.h:96-104 | a stamped signal sharing the byte survives the byte setter exactly when the written value agrees with it there |
| PatchOverlap.SignalLost | components/can_gateway/can_gateway.h:96-104 | a rule with a byte entry and a signal in the two halves of a byte: set the signal to five and the byte to zero, commit, and every frame reads zero |
| PatchOverlap.HalvesAccepted | components/can_gateway/__init__.py:1316-1354 | configuration accepts that rule, as no bit is claimed twice |
| RulePatches.IdFits | components/can_gateway/can_gateway.h:125-132 | a staged identifier fits the frame type, and is kept when it does already |
| RulePatches.RulePatch.ActivePatch | components/can_gateway/gateway_core.h:71-75 | the interrupt sees the published bank |
| RulePatches.RulePatch.Stage | components/can_gateway/gateway_core.h:77-86 | seeds the inactive bank once per cycle and changes what nobody sees |
| RulePatches.RulePatch.Commit | components/can_gateway/gateway_core.h:87-95 | publishes everything staged at once |
| RulePatches.RulePatch.SetByte | components/can_gateway/can_gateway.h:96-104 | stages one value byte; the published bank stays |
| RulePatches.RulePatch.SetSignal | components/can_gateway/can_gateway.h:105-124 | stages a signal inside the fence and says whether all of it was inside; the published bank stays |
| RulePatches.RulePatch.SetCanId | components/can_gateway/can_gateway.h:125-132 | stages an identifier; the published bank stays |
| PatchBoot.BootRefines | components/can_gateway/__init__.py:1316-1354 | an accepted rule starts with its signals showing their boot values, fenced by exactly the bits it declares |
| PatchBoot.PackedOk | components/can_gateway/__init__.py:1316-1354 | the compiled masks bit by bit: values only under cleared bits, those only where declared, declared exactly what an entry claims, each entry's value in place |
| PatchConfig.PayloadCells | components/can_gateway/__init__.py:601-620 | refused exactly when two entries claim the same bit; else the claimed bits are those of the entries |
| PatchConfig.SignalBits | components/can_gateway/__init__.py:834-858 | the cells of a field by significance, none exactly when it leaves the payload: the cells of the firmware's visitor |
| PatchConfig.PackedPatchMasks | components/can_gateway/__init__.py:1316-1342 | the loops compute the compiled masks |
| SignalGeometry.ForEachSignalBit | components/can_gateway/gateway_core.h:972-996 | visits the field's bits in order up to the end of the payload |
| SignalGeometry.SignalFitsFrame | components/can_gateway/gateway_core.h:1000-1006 | answers whether the whole field lies in the payload |
| SignalGeometry.NoBitTwice | components/can_gateway/gateway_core.h:972-996 | the walk visits no bit and no significance twice |
| SignalGeometry.EncodedField | components/can_gateway/gateway_core.h:1022-1030 | the encoded mask is the field and the encoded bits are the raw value's, bit for bit |
| SignalGeometry.SignalEncode | components/can_gateway/gateway_core.h:1022-1030 | fills mask and bits |
| SignalExtract.RoundTrip | components/can_gateway/gateway_core.h:946-1030 | reading back an encoded value gives it modulo 2^len, for Intel and Motorola fields |
| SignalExtract.ExtractBits | components/can_gateway/gateway_core.h:946-953 | shifting and masking the little-endian word gives the field's value |
| SignalExtract.ExtractBitsBe | components/can_gateway/gateway_core.h:1010-1017 | gathering the bits from the top gives the field's value |
| RecoveryBackoffs.AttemptsAreSpaced | components/can_gateway/gateway_core.h:629-680 | in every run, across counter wraps, the delay is 100 ms doubled at most five times and recovery requests are at least the delay they follow apart |
| RecoveryBackoffs.FewAttempts | components/can_gateway/gateway_core.h:629-680 | without a stable period, the requests within T ms of the first are at most 5 + T / 3200 |
| RecoveryBackoffs.AttemptIffDue | components/can_gateway/gateway_core.h:637-655 | a pass requests recovery exactly when it reads bus-off, as the pass before did, and the instant due has come, less than 2^31 ms ago modulo the wrap; then the next is due one doubled delay later |
| RecoveryBackoffs.AttemptsKeepComing | components/can_gateway/gateway_core.h:622-655 | on a bus that stays dead and is looked at every `gap` ms or more often the requests go on for ever, each less than `gap` late, at delays doubling up to 3.2 s |
| RecoveryBackoffs.DeadBusIsPrompt | components/can_gateway/gateway_core.h:637-644 | the pass that finds the bus dead starts such a stretch |
| RecoveryBackoffs.StableBusResets | components/can_gateway/gateway_core.h:656-670 | a port that goes from bus-off to active and stays active has the base delay from the first pass on that comes 10 s later, and not before |
| RecoveryBackoffs.DegradedKeepsDelay | components/can_gateway/can_gateway.cpp:366-380 | a port that comes back by way of a degraded state keeps its delay, however long it stays up |
| RecoveryBackoffs.AfterIsLoopPass | components/can_gateway/can_gateway.cpp:400-407 | the run's step is the loop's pass on 32-bit clocks |
| RecoveryBackoffs.RecoveryBackoff.Loop | components/can_gateway/can_gateway.cpp:354-407 | what one pass does about recovery |
| RecoveryBackoffs.RecoveryBackoff.BusOffAt | components/can_gateway/gateway_core.h:637-644 | arms the schedule at the current delay |
| RecoveryBackoffs.RecoveryBackoff.Attempts | components/can_gateway/gateway_core.h:645-655 | says yes exactly when armed and due, and escalates |
| RecoveryBackoffs.RecoveryBackoff.RecoveredAt | components/can_gateway/gateway_core.h:656-663 | starts the stable period |
| RecoveryBackoffs.RecoveryBackoff.StableTick | components/can_gateway/gateway_core.h:664-670 | returns to the base delay after the stable period |
| CollectorSafety.ConfirmIsSafe | script/sdlog_collect.py:1033-1081 | over any number of passes cut at any durable step: the partial stays the beginning of something offered, an archived file never changes, and a confirm is sent only with the whole card on offer in the archive, sound or torn with its sidecar |
| CollectorSafety.ProvedIsPrefix | script/sdlog_collect.py:667-686 | local bytes whose head the device confirms begin the card on offer, and equal it if they are whole |
| CollectorSafety.DownloadedOk | script/sdlog_collect.py:904-978 | a download only extends a beginning of the card and ends complete only with all of it, through cut bodies and ignored ranges |
| CollectorSafety.AttemptedOk | script/sdlog_collect.py:762-806 | so does a whole attempt, proof included |
| CollectorSafety.ShortcutIff | script/sdlog_collect.py:765-774 | a partial as long as the index says is taken without a download, rightly exactly when the index has the card's length |
| CollectorSafety.StaleIndexConfirmsShortCopy | script/sdlog_collect.py:765-774 | with a short index, two torn passes archive and confirm a short copy |
| CollectorSafety.FetchedOk | script/sdlog_collect.py:749-848 | every durable state of a fetch is sound, the archive is written once, and a confirm follows only a whole card |
| CollectorSafety.FinishedOk | script/sdlog_collect.py:814-848 | the verdict on a complete partial archives, keeps or drops it soundly |
| CollectorSafety.RecheckedOk | script/sdlog_collect.py:688-745 | the dedup path confirms only a card equal to the archived bytes |
| CollectorSafety.AlreadyHadOk | script/sdlog_collect.py:688-745 | and only when the archived file is sound or vouched for by its sidecar |
| CollectorProgress.ArchivedOutcome | script/sdlog_collect.py:688-745 | every outcome of a pass over an archived chunk: the first attempt to say anything decides it, failed for now, for good, refused or confirmed, and the disk is not touched |
| CollectorProgress.ConfirmedAgainIff | script/sdlog_collect.py:688-745 | such a pass sends a confirm for a card exactly when the archived file is trustworthy and the first attempt to say anything shows its head on that card |
| CollectorProgress.ConfirmIsRepeated | script/sdlog_collect.py:711-741 | a confirm that did not stick is sent again by the next pass over the same card, however often the device stumbles first |
| CollectorProgress.FetchedAtLast | script/sdlog_collect.py:749-848 | from a partial that begins the card, through any number of network errors, cut windows and cut bodies, the first undisturbed attempt ends in the verdict on the whole card: a sound one is archived and confirmed, a bad one dropped, a torn one noted, taken or given up, each with its exact disk |
| CollectorProgress.FetchedAfterAll | script/sdlog_collect.py:776-790 | a partial of another chunk, too long, with another head or another seam, costs one attempt and then the same holds |
| CollectorProgress.RefusalEnds | script/sdlog_collect.py:781-799 | the first answer that is no stumble ends the pass with the disk as it was: transient for a race, refused for want of permission |
| CollectorProgress.StumblesKeepThePartial | script/sdlog_collect.py:799-812 | nothing but stumbles leaves the partial for the next pass |
| CollectorHistory.TornTakenIff | script/sdlog_collect.py:856-891 | in every run from an empty disk, cut or not: when a torn chunk is taken, the full fetch before it is equal exactly when it was noted, or was left without verdict or note and equals the sighting noted last; never when it was judged bad or given up |
| CollectorHistory.UncutTakenIff | script/sdlog_collect.py:814-891 | in every run without cuts and with right lengths in the index: when a torn chunk is taken, the full fetch before it is equal exactly when it was not judged bad |
| CollectorHistory.TakenAfterCut | script/sdlog_collect.py:883-887 | a run of passes from an empty disk: a is noted, the pass of b is cut between keeping and noting, a is fetched again and confirmed |
| CollectorHistory.TakenAfterBad | script/sdlog_collect.py:825-830 | a run without a cut: a is noted, x arrives whole and is judged bad, a is fetched again and confirmed |
| CollectorHistory.TakenAfterNoVerdict | script/sdlog_collect.py:762-812 | a run: a is noted, b arrives whole but its pass is cut before the verdict, the next pass drops it at a head mismatch, fetches a and confirms it |
| CollectorHistory.FetchesInv | script/sdlog_collect.py:749-891 | at every durable step the partial is the latest full fetch or no card at all, and the latest full fetch stands to the note as its fate says |
| CollectorSafety.NoteKept | script/sdlog_collect.py:867-891 | whatever a pass meets, the note describes the torn bytes kept at its end, and at every cut but the one right after a differing fetch was kept |
| CollectorSafety.StableTornIsTaken | script/sdlog_collect.py:856-891 | a stable torn card is taken on its second full fetch |
| CollectorSafety.CutLeavesStaleNote | script/sdlog_collect.py:856-891 | the durable state where the note does not match |
| Collectors.Collector.Collect | script/sdlog_collect.py:1033-1081 | the step of a pass for one chunk goes through the specified durable states to the specified result |
| Collectors.Collector.Fetch | script/sdlog_collect.py:749-848 | the attempt loop |
| Collectors.Collector.TryOnce | script/sdlog_collect.py:762-806 | one attempt: proof, shortcut, download |
| Collectors.Collector.Download | script/sdlog_collect.py:904-978 | one request, resumed or started over |
| Collectors.Collector.Resume | script/sdlog_collect.py:904-978 | a resumed body is checked against the seam and appended byte by byte |
| Collectors.Collector.StartOver | script/sdlog_collect.py:904-978 | a fresh body truncates the partial on its first byte only |
| Collectors.Collector.Finish | script/sdlog_collect.py:814-848 | the verdict on a complete partial |
| Collectors.Collector.SightTorn | script/sdlog_collect.py:856-891 | a torn sighting is taken, kept and noted, or given up |
| Collectors.Collector.Store | script/sdlog_collect.py:833-848 | sidecar, rename and candidate removal in this order |
| Collectors.Collector.DropCandidate | script/sdlog_collect.py:852-855 | removes candidate, then note |
| Collectors.Collector.Recheck | script/sdlog_collect.py:688-745 | the proof loop of the dedup path, whose outcome CollectorProgress.ArchivedOutcome states |
| Collectors.Collector.AlreadyHave | script/sdlog_collect.py:688-745 | the gate in front of the dedup skip |
| LoaderSafety.ExactlyOnce | script/sdlog_decode.py:809-848 | from empty tables, after any runs cut at any statement while files are added between them, one complete run of the catalog last in use, or of a new one, leaves each intact file's rows exactly once, none for defects or for chunks no file has, and a current marker for every file, for any batch size and with equal files |
| LoaderSafety.GrownRecoverable | script/sdlog_decode.py:792-797 | added files are pending, and tables that a complete run would have put right stay so when the archive grows |
| LoaderSafety.RunEndsExactIff | script/sdlog_decode.py:809-848 | a complete run ends exact exactly from tables whose done files are right, or share their chunk with a pending file |
| LoaderSafety.RunCut | script/sdlog_decode.py:809-848 | a run cut at any statement leaves such tables |
| LoaderSafety.RunSpares | script/sdlog_decode.py:818-835 | a run leaves the marker of every done file alone, and its rows unless a pending file shares its chunk |
| LoaderReversion.GoingBackIff | script/sdlog_decode.py:818-835 | from tables exact under one catalog, a run under another that got n statements out and a complete run under the first again end exact exactly when each chunk has a file that the n statements marked again, or has in every table they cleared just the rows the first catalog expects, put in under the other |
| LoaderReversion.RevertedCatalogLosesRows | script/sdlog_decode.py:818-835 | a run that dies in or right after its bulk delete, followed by a return to the previous catalog: nothing is loaded, and the rows are lost for good exactly when the cleared tables had any to hold |
| LoaderRows.BodyFills | script/sdlog_decode.py:664-789 | from no rows, a chunk's statements leave exactly its expected rows, none for a defect or a broken read |
| LoaderRows.IntactSends | script/sdlog_decode.py:664-789 | the batched inserts of an intact chunk add its rows once and in order |
| LoaderSpec.Pending | script/sdlog_decode.py:792-797 | the files without a marker of the current catalog |
| Loaders.LoadChunk | script/sdlog_decode.py:664-789 | delete, rows, marker, until the database goes away |
| Loaders.ReadRecords | script/sdlog_decode.py:664-789 | rows are sent as soon as a buffer holds a batch |
| Loaders.LoadRows | script/sdlog_decode.py:664-789 | what is sent between delete and marker |
| Loaders.LoadAll | script/sdlog_decode.py:809-848 | the pending files in turn; a second file with the same bytes deletes first |
| Loaders.RunLoader | script/sdlog_decode.py:809-848 | one run sends the specified statements in order until the database goes away |
| Loaders.Sink.Execute | script/sdlog_decode.py:343-367 | one statement on the reference tables |
| CcpDaq.DaqLifecycle | components/ccp/ccp.cpp:287-474 | in every run an active read is held by exactly one of its own outstanding command and a running collection; done fires once per accepted read, after both stop commands were attempted; a good result has all samples, shows what the last good frame held behind all earlier fields, and asked for no more than a frame carries |
| CcpDaq.EveryReadEnds | components/ccp/ccp.cpp:12-21 | from any state at most three passed deadlines end an active read |
| CcpDaq.DeadlineLowers | components/ccp/ccp.cpp:12-21 | the deadline running for an active read always brings it nearer its end |
| CcpDaq.VerdictIsTrue | components/ccp/ccp.cpp:402-448 | what is told of a read that is over: the exact count of frames with the anchor; good values are those of the last good frame; failed for the anchor means none had it, failed for the sample that none was good |
| CcpProgram.ProgrammeIsSent | components/ccp/ccp.cpp:334-401 | in every run a collecting read has sent, in order and nothing else, GET_DAQ_SIZE, SET_DAQ_PTR, one WRITE_DAQ per layout field, SET_S_STATUS 0x82 and START_STOP with the request's parameters; one that is over has sent a beginning of that, all of it if good and as far as its failed step says otherwise, then those of the two stop commands the port took |
| CcpProgram.StepTrace | components/ccp/ccp.cpp:43-102 | every event, with handlers that call back, keeps the record of what was sent for the read |
| CcpSampling.ValuesAreMemory | components/ccp/ccp.cpp:334-448 | against a target whose frames show its memory at the list's elements: each value of a good read is the target's memory at the field asked for, all at one moment, at which a required anchor held what is expected, whatever was refused, late or lost |
| CcpSampling.SysStep | components/ccp/ccp.cpp:334-474 | every exchange, timeout and frame keeps hub and target in step |
| CcpReads.ReadEndsWell | components/ccp/ccp.cpp:287-474 | an idle hub that may write, a willing port and an obliging target: a read whose layout fits one frame is accepted and ends well with the memory at its fields |
| CcpSession.OpenIffConnected | components/ccp/ccp.cpp:70-84 | in every run the hub takes itself for connected exactly when the last connect or disconnect answered well was a connect |
| CcpSession.ConnectsOnlyWhenClosed | components/ccp/ccp.cpp:200-215 | asking for a connection sends a connect exactly when there is none and the hub can send |
| CcpDaq.StepInv | components/ccp/ccp.cpp:43-102 | every event, with handlers that call back into the hub, keeps the read's invariant |
| CcpDaq.SampledEvidence | components/ccp/ccp.cpp:402-432 | values are only ever the slices of the last frame seen that held the whole layout and the anchor |
| CcpDaq.OffsetsExact | components/ccp/ccp_proto.h:242-260 | a layout that passes the size gate has all its fields at their true places inside one frame exactly when its size does not wrap in sixteen bits |
| CcpDaq.SizeGateWraps | components/ccp/ccp.cpp:287-357 | an idle hub that may write takes a read of 258 fields, 65536 bytes, whose sixteen-bit size is zero |
| CcpDaq.CarriedFits | components/ccp/ccp.cpp:413-428 | a frame that carries every field of a layout that passed the gate shows that the size has not wrapped, so a wrapped read never ends well |
| CcpMemory.WriteIsExact | components/ccp/ccp.cpp:256-285 | a write that reports success has changed the slave's memory to the data on exactly its range; it reports at most once, and never touches anything outside |
| CcpMemory.ReadIsExact | components/ccp/ccp.cpp:215-255 | a read delivers at most once, and then exactly the memory of its range |
| CcpWedge.ReadAcceptedIff | components/ccp/ccp.cpp:215-234 | when a read is accepted, and that of all refusals only an unsendable first command leaves the hub wedged |
| CcpWedge.ChainAbandonedIff | components/ccp/ccp.cpp:235-285 | in the hub as the answer's handlers have left it: a chain's next command is not sent, which wedges a read and leaves a write without a command, exactly when the hub is disabled, may not write, has its slot taken by a handler's own command or is refused by the port |
| CcpWedge.TakenByAHandler | components/ccp/ccp.cpp:69-88 | a run with a port that takes every frame: a response handler's own command wedges a read, and abandons a write |
| CcpWedge.AbandonedToldIff | components/ccp/ccp.cpp:476-490 | until another write gets past its guard, a write left without a command is told of its failure exactly when a later memory read fails, and then once; it is never told of success |
| CcpWedge.ToldByALaterRead | components/ccp/ccp.cpp:476-490 | a run: the second data frame of a write is refused, a later read goes unanswered, and the write hears of it |
| CcpWedge.TakenReplaces | components/ccp/ccp.cpp:256-265 | a write that gets past its guard takes the place of any write before it and tells nobody |
| CcpWedge.WedgedAtOnce | components/ccp/ccp.cpp:215-234 | a run of one refused frame from power-up to a hub that takes no read |
| CcpWedge.WedgedUntilAWriteFails | components/ccp/ccp.cpp:476-490 | in every run of a wedged hub, writes included, it owes its bytes and takes no read from beginning to end exactly when no command of a write fails |
| CcpWedge.WedgedStep | components/ccp/ccp.cpp:476-490 | one event clears what a wedged hub owes if it fails a command of a write, and else leaves it and delivers nothing |
| CcpWrites.SuccessMeansSentIff | components/ccp/ccp.cpp:256-285 | in every run, whatever the handlers call: the data of a write that reports success was sent whole and in order behind the SET_MTA for its place exactly when the write was not asked for by a handler of another write's answer, or its own SET_MTA was refused and the answered one was for the same place |
| CcpWrites.SuccessOfNothing | components/ccp/ccp.cpp:69-88 | a run with a willing port: a handler of one write's answer asks for another, success is reported, and no data frame was ever sent |
| CcpTransfers.ReadDelivers | components/ccp/ccp.cpp:215-255 | with an idle hub, a willing port and slave and silent handlers a read delivers, after one SET_MTA and a command for every five bytes |
| CcpTransfers.WriteReports | components/ccp/ccp.cpp:256-285 | likewise a write reports success with the data in place, after one SET_MTA and a command for every six bytes |
| CcpHub.Send | components/ccp/ccp.cpp:43-67 | a command is sent exactly when enabled, permitted, alone and taken by the port |
| CcpMasters.CcpMaster.SendCommand | components/ccp/ccp.cpp:43-67 | the counter moves on even when the port refuses |
| CcpMasters.CcpMaster.FinishCommand | components/ccp/ccp.cpp:69-88 | frees the slot, runs handlers, then the continuation |
| CcpMasters.CcpMaster.OnCanFrame | components/ccp/ccp.cpp:90-102 | answers are matched by counter, DAQ frames sampled, anything else ignored |
| CcpMasters.CcpMaster.Resume | components/ccp/ccp.cpp:287-400 | runs what the answered command continues with |
| CcpMasters.CcpMaster.StartReadMemory | components/ccp/ccp.cpp:215-234 | records the request and sends the transfer address |
| CcpMasters.CcpMaster.MoveReadOn | components/ccp/ccp.cpp:235-255 | appends a chunk, asks for the next, delivers or fails |
| CcpMasters.CcpMaster.StartWriteMemory | components/ccp/ccp.cpp:256-265 | records the data and sends the transfer address |
| CcpMasters.CcpMaster.MoveWriteOn | components/ccp/ccp.cpp:266-285 | sends the next chunk, or reports the end or the failure |
| CcpMasters.CcpMaster.StartDaqRead | components/ccp/ccp.cpp:287-357 | every refusal of a DAQ read, and the start of an accepted one |
| CcpMasters.CcpMaster.SendStep | components/ccp/ccp.cpp:359-365 | a chain step that cannot be sent completes the read as failed |
| CcpMasters.CcpMaster.SendField | components/ccp/ccp.cpp:366-396 | the next field of the layout, or the status command after the last; CcpProgram.ProgrammeIsSent states the order over runs |
| CcpMasters.CcpMaster.OnDaqFrame | components/ccp/ccp.cpp:402-432 | samples a frame and completes at the target |
| CcpMasters.CcpMaster.CompleteRead | components/ccp/ccp.cpp:434-448 | decides the result once and tears down |
| CcpMasters.CcpMaster.TearDown | components/ccp/ccp.cpp:450-458 | stops all lists, then clears the status, whether or not they can be sent |
| CcpMasters.CcpMaster.FireDone | components/ccp/ccp.cpp:460-474 | fires the done callback of an active read once |
| CcpMasters.CcpMaster.FailTransfer | components/ccp/ccp.cpp:476-490 | drops a read silently, tells a write's callback |
| CcpMasters.TakeSample | components/ccp/ccp.cpp:413-428 | every requested slice, or none when the frame is too short for one |
| CcpMasters.DaqTotalSize | components/ccp/ccp_proto.h:242-249 | the layout's size in sixteen bits |
| CcpMasters.DaqFieldOffset | components/ccp/ccp_proto.h:253-260 | a field's offset in eight bits |
| LinSelfEcho.EveryAnswerIsReceived | components/linbus/LinProtocolHandler.cpp:334-530 | alone on the bus, for every run of headers, responses and break presentations, no collision, identifier error or checksum error is counted, and the accepted frames are the answered ones, payload for payload and in order |
| LinSelfEcho.StepInv | components/linbus/LinProtocolHandler.cpp:444-530 | every step keeps decoder, echo queue and wire in agreement |
| LinSelfEcho.OwnFrameAccepted | components/linbus/LinProtocolHandler.cpp:81-131 | a published frame is accepted whichever checksum type is preferred by then |
| LinReception.AcceptedIffIntact | components/linbus/LinProtocolHandler.cpp:81-131 | over every wire of bytes, timeouts, breaks and framing errors the frames accepted are, in order, those of the responses that ended with 2 to 16 bytes and a checksum byte that closes the sum under a type, and every other such response is one checksum error |
| LinReception.HeardIffIntact | components/linbus/LinProtocolHandler.cpp:81-131 | so for one event, with the decoder's next stage, the counters of breaks, framing and parity errors, and a fallback counted exactly when the type looked at first does not close it |
| LinReception.RightIffCloses | components/linbus/LinProtocolHandler.cpp:120-131 | a checksum byte is right exactly when it closes the sum and is not 0xFF over a sum that is not zero |
| LinReception.ClosedButRejected | components/linbus/LinProtocolHandler.cpp:113-131 | payload 0xFF and checksum 0xFF close the sum, and the frame is rejected |
| LinReception.EveryDifferenceIsCounted | components/linbus/LinProtocolHandler.cpp:362-397 | in a response of its own every byte that comes back otherwise is one collision, and the bytes that do not come back are one more at the silence behind them |
| LinReception.ByteCompared | components/linbus/LinProtocolHandler.cpp:362-381 | any byte but an identifier meets one expectation or counts one collision, a break still heard in front of the sync byte excepted |
| LinReception.AnsweredIffPublished | components/linbus/LinProtocolHandler.cpp:49-79 | a header heard whole is answered, with the first response published under its identifier and its echo expected, exactly by nodes that are no listeners and publish one |
| LinReception.HeaderExpects | components/linbus/LinProtocolHandler.cpp:239-246 | sending a header expects exactly its three echoes, and counts what was still expected as one collision |
| LinFrames.ChecksumCloses | components/linbus/LinProtocolHandler.cpp:256-278 | the sum of everything, checksum included, folds to 0xFF |
| LinFrames.ParityCatchesOneBit | components/linbus/LinProtocolHandler.cpp:554-559 | any single bit error in a protected identifier breaks its parity |
| LinFrames.ParityIs | components/linbus/LinProtocolHandler.cpp:554-559 | even parity over bits 0, 1, 2 and 4 and odd parity over bits 1, 3, 4 and 5 |
| LinFrames.CalculateChecksum | components/linbus/LinProtocolHandler.cpp:256-278 | the loops compute the checksum |
| LinFrames.DiagnosticIsClassic | components/linbus/LinProtocolHandler.cpp:261-267 | a diagnostic identifier has the classic checksum whatever is asked for |
| LinResponses.SetThenLookup | components/linbus/LINCommunication.cpp:287-350 | a published response reads back with its checksum until changed, affects no other identifier, and is refused exactly when invalid or new with no room |
| LinResponses.ResponseTable.SetResponseData | components/linbus/LINCommunication.cpp:287-350 | the searching loops over the table |
| LinHandlers.LinHandler.ReceiveDecode | components/linbus/LinProtocolHandler.cpp:444-530 | echo comparison, then the decoder's step, for every byte |
| LinHandlers.LinHandler.OnIdentifier | components/linbus/LinProtocolHandler.cpp:49-79 | writes the published response and expects its echo |
| LinHandlers.LinHandler.OnDataFrame | components/linbus/LinProtocolHandler.cpp:81-131 | accepts a frame under the preferred checksum type or, counted, the other; LinReception.AcceptedIffIntact says which frames those are |
| LinHandlers.LinHandler.EchoBeginTx | components/linbus/LinProtocolHandler.cpp:342-350 | leftover expectations are one collision |
| LinHandlers.LinHandler.EchoPush | components/linbus/LinProtocolHandler.cpp:352-360 | appends to the circular buffer; a full one is one collision |
| LinHandlers.LinHandler.EchoCompare | components/linbus/LinProtocolHandler.cpp:362-381 | pops and compares, tolerating a break's zero before the sync byte |
| LinHandlers.LinHandler.EchoPop | components/linbus/LinProtocolHandler.h:213-216 | drops the oldest expectation |
| LinHandlers.LinHandler.OnInterByteTimeout | components/linbus/LinProtocolHandler.cpp:383-397 | finishes a pending frame and clears leftovers |
| LinHandlers.LinHandler.OnUartBreak | components/linbus/LinProtocolHandler.cpp:399-422 | finishes a pending frame and starts a header |
| LinHandlers.LinHandler.OnUartFrameError | components/linbus/LinProtocolHandler.cpp:424-442 | drops expectations; a resync just made by a break stands |
| LinHandlers.LinHandler.HeaderSent | components/linbus/LinProtocolHandler.cpp:239-246 | expects break, sync and protected identifier |
| LinSchedule.NoStarvation | components/linbus/LinProtocolHandler.cpp:192-250 | an entry due at every call is sent once the bus has been idle for as many of them as its distance, however short the other intervals |
| LinSchedule.DueComesNearer | components/linbus/LinProtocolHandler.cpp:192-250 | a due entry is sent now or comes nearer |
| LinSchedule.SentOnlyWhenDue | components/linbus/LinProtocolHandler.cpp:192-250 | an entry is sent exactly when the bus is idle and one is due; it is due again exactly after its interval, and no other entry changes |
| LinSchedule.EnteredOnce | components/linbus/LINCommunication.cpp:228-262 | an entered identifier is scheduled exactly once and due at once, and leaves the others alone; refused exactly when new and full |
| LinSchedule.MasterSchedule.SendNext | components/linbus/LinProtocolHandler.cpp:192-250 | the rotating scan from where the last one stopped |
| LinSchedule.MasterSchedule.EnterId | components/linbus/LINCommunication.cpp:228-262 | the two searching loops |
| ArrayFolding.FoldingIsInvertible | script/uds_catalog.py:373-425 | expanding every array record gives back the field list, field for field |
| ArrayFolding.RunsAreTheQualifying | script/uds_catalog.py:327-370 | the runs found are exactly the maximal chains of three or more whose services read as indices and that do not start inside an earlier one |
| ArrayFolding.ElementsApart | script/uds_catalog.py:327-370 | two elements of one array never share a bit |
| ArrayFolding.TooLongIff | script/uds_catalog.py:384-390 | folding gives up exactly over a run of more than 255 elements |
| ArrayFolding.RunIsArray | script/uds_catalog.py:327-370 | a run's fields are copies of the first at a constant stride no smaller than the field |
| ArrayFolding.FindArrayRuns | script/uds_catalog.py:327-370 | the scanning loops |
| ArrayFolding.CollapseArrays | script/uds_catalog.py:373-425 | the folding loop |
| ArrayFolding.CountMatches | script/uds_catalog.py:289-310 | how many services number in step with their position |
| UniqueNames.AssignUniqueNames | script/uds_catalog.py:428-516 | every field gets exactly the name its rule gives it, all distinct, exactly when no field is blocked; else rule (c) gives up over a blocked field, and the final check never fires |
| UniqueNames.DistinctIff | script/uds_catalog.py:428-516 | the three rules give distinct names exactly when no field is blocked |
| UniqueNames.BlockedWithoutSharing | script/uds_catalog.py:468-478 | a blocked field where no two fields share presentation and position |
| UniqueNames.PositionalIdentifies | script/uds_catalog.py:472 | a positional name determines presentation and position |
| UniqueNames.ByPresentation | script/uds_catalog.py:441-450 | rule (a) |
| UniqueNames.ByService | script/uds_catalog.py:452-465 | rule (b) |
| UniqueNames.HasDuplicate | script/uds_catalog.py:508-513 | whether the final check fires |

## Left out

- ISO-TP transfers in both directions of one address pair at the same time; the nodes do both, the composed runs send one message.
- IsoTpTimeouts.SilentPeer: for the 2^32 ms that a wrapping clock can tell apart, after which a timer reads as young again.
- IsoTpClock.NeverStuck: for less than 2^32 ms between two consecutive frames of the sender, which a wrapping clock cannot tell from none.
- UdsTap.SameMessages: for normal addressing and a receiver without a consecutive-frame timeout, the tap having neither.
- GatewayRuns.SlotOwnership: for one route into a port; several routes would only add pools.
- Gateway counters wrap at 2^32 in the firmware and are unbounded here; ring counters, stamps, clocks and CCP and LIN arithmetic wrap as in the source.
- Weak memory: interleavings are sequentially consistent, which the source's acquire and release fences are there to justify.
- SnapshotRing.OnlyWholeSnapshots: for fewer than 2^31 pushes, after which sequence stamps repeat.
- Observation.ObservationPlane: takes the ring as a FIFO and the filter as given; ObservationRuns.EndToEnd takes neither.
- RulePatches.FramesSeeTheLastCommit: has frames between whole setters; PatchStores.FrameBetweenStores has them between single stores.
- The TWAI, UART, FreeRTOS and ESPHome interfaces, hardware filters, log taps, identifier timing tables, cyclic sends, statistics and sensors.
- Floating point: physical values of signals, bus load and LIN rates.
- Sign extension and the not-available codes of decoded signals, which are single expressions.
- ESPHome schemas other than the claims and masks of a patch.
- CollectorSafety.ConfirmIsSafe: assumes that one attempt talks to one card, that a card proved is still the one confirmed, and that two contents under one name differ within the head window; bytes stand for their hashes.
- A second collector working on the same archive, and errors of the local file system.
- HTTP, sockets, hashing, ClickHouse and file formats; what the chunk reader says of a file is a parameter.
- LoaderSafety.ExactlyOnce: assumes that files of equal bytes are judged alike, so no sidecar tells them apart, and that an archived file never changes or goes away.
- LoaderReversion.GoingBackIff: for one run under another catalog over an archive that does not grow meanwhile.
- Several devices in one loader run, schema creation and coverage reports.
- CCP commands that are a single send, and the byte layout of command frames; a command is its parameters.
- CcpDaq.DaqLifecycle: for frames of at most eight bytes, all that classic CAN carries.
- CcpSampling.ValuesAreMemory: for a target that carries out a command only before the hub has given up on it, with no other command in between; CcpProgram.ProgrammeIsSent has them.
- CcpMemory.WriteIsExact: for a slave that carries out a command only before the hub has given up on it.
- LIN statistics, the table of discovered identifiers, the self test, collisions left uncounted while the mutex is held, and headers whose transmission fails.
- UDS states, groups and trouble codes derived from reassembled messages, which depend on the catalog format; components/uds/catalog.py is not part of this model.
- Units, scales and text flags of catalog fields, which folding only compares and which are one value here.
