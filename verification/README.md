# MT6572 CONSYS link: a Dafny model

The driver talks to the combo chip through STP, a go-back-N protocol over BTIF; it lets the chip sleep through
the PSM thread, the WMT thread and a policy shared with the Wi-Fi driver; BTIF moves the bytes through DMA
virtual FIFOs and a software ring; a user-space bridge cuts the Bluetooth stream into H4 packets. This project
models those parts and proves what they are for. Run `dafny verify dfyconfig.toml`.

| files | what they hold |
|---|---|
| `Bytes`, `Ring`, `RingParts` | octets, circular buffers, circular queues of variable-length parts |
| `StpFrame`, `StpEndpoint` | wire format; one STP endpoint as a value with its transitions |
| `StpQueue`, `StpCore` | the retransmit ring and its tables; the transmit side as an object that refines `StpEndpoint` |
| `StpParser`, `StpRoundTrip` | the byte-at-a-time parser as an object and as a function; encode/parse round trip, and what is reported of damaged input |
| `GoBackN`, `GoBackNRecovery`, `StpLink` | two endpoints over two lossy FIFO links: safety in every run, recovery after loss; parser and protocol joined |
| `StpRxRing` | the per-client receive ring |
| `PsmOps`, `PsmFolding` | the PSM op rings and request folding; all threads together |
| `HoldFifo`, `PsmMachine`, `PsmRedundancy` | framed hold FIFO; the four PSM states, their event flags and the traffic gate; folding against the states |
| `PsPolicy`, `WmtPower`, `PowerSystem` | monitor policy; wake-exchange choice; the whole sleep/wake system with the chip |
| `Vfifo`, `BtifDma` | wrap-bit pointers; both DMA channels |
| `BtifBbs`, `BtifBbsShared` | the BTIF software ring; producer and consumer interleaved |
| `BtifClock` | BTIF driver states and clock references |
| `H4Bridge` | H4 reframing |

How the code is rendered:

- Objects whose fields the driver updates are classes. Each method is proved equal to a function on the
  object's value, or to an equation on the bytes it holds, and the lemmas are about those functions. A region under one
  lock is one step of a state machine.
- `osal_crc16` is a parameter: every result holds for any 16-bit function of the payload. Bit fields are
  arithmetic on octets, with 8-bit and 16-bit truncations written out.
- The history fields `sent`, `got`, `wire`, `accepted`, `delivered` and the tags on packets in flight are read by
  no modelled code.
- In `StpEndpoint.Receive` and in the system of two endpoints, `queued` says how handing an accepted packet to its
  client ended: true also when the packet is dropped because the client's function is off (conn_soc/core/stp_core.c:1056-1076),
  false when the ring was full. "Accepted" is what the go-back-N results speak of; the acknowledgement is sent
  before the packet is queued.
- In `PowerSystem` the PSM thread may be handed any op at any time. That covers every timer, sender, drain and fold,
  so the safety results do not rest on the queue. Choosing a wake exchange and its arrival at the chip are two
  steps. The monitor test and the step out of ACT are one step (`StaleTest` says what happens otherwise), and so are
  the wake interrupt and its callback. Results are stated from every state of the invariant, which holds at boot with
  the monitor on, as the flags are initialised, and off, as a PSM reset leaves them.
- In `PsmRedundancy` the switching of the monitor is four steps: set the disable bit, empty the queue, ask for a
  wake-up, finish in ACT. The test of the bit by a sleep request is part of the request, or was made at any earlier
  moment. Monitor test and transition are one step here too.

Results where the code does not do what its callers might expect, each with the exact condition:

- `StpRoundTrip.CarriedExactly`: the sender checks neither type nor length, but only types 0-4 and 7 with 1 to 2048
  bytes survive the trip.
- `GoBackNRecovery.Recovery`, `UnansweredRounds`, `UnansweredReachable`: after everything was accepted and the last
  packet found its ring full, a lost acknowledgement is not repeated: every further timeout only raises the retry
  count, past its limit, unless a new packet is sent (`UnansweredEnds`).
- `StpRxRing.TakenIsMin`: a read longer than 65535 bytes past the end of the ring may return too few.
- `PsmFolding.StallsExactly`, `SpinsAtFirst`: before the first op is taken the clean-up loop can spin for ever with its
  spinlock held; it takes two forced wake-ups at once (an error path of the STP core calls one without the policy lock,
  conn_soc/core/stp_core.c:471) and a wake-up by the chip.
- `PsmFolding.FirstTakeDecides`, `UnfoldedAtFirst`: the first op taken leaves the queue folded for good exactly when no
  request of its own class is right behind it; from the second op taken on the queue is folded in every run.
- `PsmRedundancy.UpsetsExactly`, `SleepTestedEarlier`, `SleepCancelled`: a sleep refused while the monitor is off does no
  harm, as the call that switches it on asks for a wake-up first (`FoldedAwayRedundant`). Two things do harm, and
  nothing else short of a failed exchange: a sleep request that tested the disable bit before such a call and is queued
  behind its wake-up, and a sleep op cancelled with the monitor on and nothing behind it. The queue can then fold away
  sleep requests although the chip is awake and the monitor on.
- `StpRoundTrip.StrayByte`: a lone pattern byte between packets makes the parser drop everything until the next pattern.
- `HoldFifo.ReleaseExactly`, `ReleaseOneTooLong`: a held packet of more than 2000 bytes never comes out, and what was
  held behind it is lost with it or released misaligned.
- `PsmMachine.OfferKeepsOrder`, `Overtaken`: with more than twenty packets held, a direct send overtakes the rest; it
  takes 41 packets held during one sleep.
- `PsPolicy.DisableIsLost`: `wmt_lib_ps_disable` during an operation is forgotten.
- `PowerSystem.StaleTest`, `StaleTestRuns`: the driver tests the monitor and then leaves ACT without the policy lock
  (conn_soc/core/psm_core.c:1048-1053). If others run in between, that is safe for all that may follow exactly when by
  then a call is forcing the chip awake, or the monitor is still on, or no operation is in flight and the policy still
  asks for the monitor.
- `PowerSystem.WakeGivenUp`, `WakeGivenUpRun`: a ps_ctrl(0) whose forced wake-up fails ignores the failure, and the next
  operation starts on a sleeping chip.
- `PowerSystem.ExchangeArrives`: a line raised after the exchange was chosen and before it arrives makes it the wrong one.
- `BtifBbsShared.CheckIntact`: a write that finds the fill at the limit loses what was stored.
- `BtifClock.CallBalanced`, `LeaksReachable`: a send while closed followed by an open, and a resume with a busy
  transmitter, leak clock references.
- `H4Bridge.BoundExactly`, `TooLongIsLost`: packets of more than 6145 bytes can overflow the accumulator and are lost.

## Model

| member | source | states |
|---|---|---|
| StpFrame.RefreshOnlyAck | conn_soc/core/stp_core.c:290-309 | rewriting a stored header for a resend changes its 3 ack bits and its checksum and nothing else, and the checksum is the one of the new header |
| StpFrame.RefreshEncode | conn_soc/core/stp_core.c:290-309 | on a stored frame that is the same as encoding the packet again with the new ack |
| StpEndpoint.SendCoherent | conn_soc/core/stp_core.c:2563-2598 | a send, admitted or refused, keeps the endpoint coherent: window accounting, consecutive numbers mod 8, and no more bytes outstanding than the ring can hold |
| StpEndpoint.TakeAckCoherent | conn_soc/core/stp_core.c:924-960 | so does any acknowledgement, in the window or not |
| StpEndpoint.TimeoutCoherent | conn_soc/core/stp_core.c:380-449 | so does a retransmission timeout |
| StpEndpoint.CoherentWindow | conn_soc/core/stp_core.c:2563-2598 | winspace is the window less (txseq - rxack - 1) mod 8 |
| StpEndpoint.WindowAccounting | conn_soc/core/stp_core.c:924-960 | in every run from reset, whatever arrives, that equation and coherence hold |
| StpEndpoint.ResetCoherent | conn_soc/core/stp_core.c:322-352 | reset establishes them for every window up to 7, whatever the queueing flag it leaves as it was |
| StpEndpoint.SendExactly | conn_soc/core/stp_core.c:2563-2598 | a packet is sent if and only if fewer than a window are outstanding and its encoding fits the ring beside theirs with one cell to spare; it then queues behind them, and a refused one leaves no trace |
| StpEndpoint.TakeAckExactly | conn_soc/core/stp_core.c:924-960 | the number of an outstanding frame takes that frame and all before it, reopens the window by as many and clears the retry count; any other number changes nothing |
| StpQueue.WalkMeets | conn_soc/core/stp_core.c:930-941 | the upward walk over sequence numbers meets an acknowledgement after exactly as many steps as frames it covers |
| StpQueue.TracksAppend | conn_soc/core/stp_core.c:2574-2592 | queueing an admitted frame overwrites no outstanding one and enters it in a free slot of both tables |
| StpQueue.TracksDrop | conn_soc/core/stp_core.c:942-948 | moving the read pointer past the acknowledged frame frees exactly the acknowledged ones |
| StpQueue.TracksRefresh | conn_soc/core/stp_core.c:290-309 | renewing a header in place renews that frame only, also when header or body straddles the end of the ring |
| StpCore.StpCore.constructor | conn_soc/core/stp_core.c:322-352 | the state at first start, with an empty ring and nothing sent |
| StpCore.StpCore.RestCtxState | conn_soc/core/stp_core.c:322-352 | a reset on any state: the same with nothing outstanding, except that the queueing flag (a static of conn_soc/core/stp_core.c:976) stays |
| StpCore.StpCore.IsTxResAvailable | conn_soc/core/stp_core.c:617-635 | true exactly when the bytes outstanding plus the new ones leave one cell free |
| StpCore.StpCore.AddToTxQueue | conn_soc/core/stp_core.c:647-663 | the wrapped copy lays the bytes down from the write pointer and touches no other cell |
| StpCore.StpCore.UpdateTxQueue | conn_soc/core/stp_core.c:290-309 | the in-place loop round the ring writes exactly the refreshed header |
| StpCore.StpCore.SendTxQueue | conn_soc/core/stp_core.c:720-755 | puts on the wire the stored frame with the current ack, and stores it so |
| StpCore.StpCore.SendData | conn_soc/core/stp_core.c:2558-2620 | the endpoint's send transition; the bytes on the wire are that packet's encoding; a refusal changes nothing |
| StpCore.StpCore.FindAck | conn_soc/core/stp_core.c:929-941 | the search succeeds exactly for acknowledgements in the window, and counts the frames covered |
| StpCore.StpCore.ProcessRxAck | conn_soc/core/stp_core.c:924-960 | the endpoint's acknowledgement transition on counters, ring and tables |
| StpCore.StpCore.ProcessPacket | conn_soc/core/stp_core.c:1013-1141 | the endpoint's receive transition: accept and acknowledge, repeat the last acknowledgement, or stay silent |
| StpCore.StpCore.DoTxTimeout | conn_soc/core/stp_core.c:380-449 | the endpoint's timeout transition: the resync pattern, then every outstanding frame in order with a fresh ack |
| StpCore.StpCore.Resend | conn_soc/core/stp_core.c:425-435 | the loop sends each outstanding frame once, in number order |
| StpParser.FeedAppend | conn_soc/core/stp_core.c:1790-2055 | two buffers in a row parse as their concatenation, as long as the first has no error |
| StpParser.FeedBlock | conn_soc/core/stp_core.c:1975-2018 | the payload block copy does what the parser would do byte by byte |
| StpParser.FullModeParser.SyncByte | conn_soc/core/stp_core.c:1798-1864 | the resync states and Sync on one byte |
| StpParser.FullModeParser.ChecksumByte | conn_soc/core/stp_core.c:1907-1973 | the header checksum state on one byte, with its error, acknowledgement-only, firmware and payload branches |
| StpParser.FullModeParser.CrcByte | conn_soc/core/stp_core.c:2021-2055 | the CRC states: a packet is reported exactly when the CRC matches, otherwise the parser resynchronises |
| StpParser.FullModeParser.PayloadPass | conn_soc/core/stp_core.c:1975-2018 | a pass of the loop in the payload state; its over-boundary branch cannot be taken |
| StpParser.FullModeParser.ParserDataInFullMode | conn_soc/core/stp_core.c:1790-2055 | the parser call reports exactly the events of the byte-by-byte function and ends in its state, for every input and every state |
| StpRoundTrip.FrameParsed | conn_soc/core/stp_core.c:1826-2045 | from Sync an encoded data frame is reported with its number, ack, type and payload, and leaves Sync |
| StpRoundTrip.AckParsed | conn_soc/core/stp_core.c:768-800 | so is an acknowledgement |
| StpRoundTrip.PatternSyncs | conn_soc/core/stp_core.c:1798-1857 | from Sync or any resync state four pattern bytes in all end in Sync, and further ones stay there |
| StpRoundTrip.WireParsed | conn_soc/core/stp_core.c:1790-2055 | any concatenation of sent units is reported as those units |
| StpRoundTrip.ChunkingIrrelevant | conn_soc/core/stp_core.c:1790-2055 | splitting error-free input over parser calls changes nothing |
| StpRoundTrip.RoundTrip | conn_soc/core/stp_core.c:2570-2594 | any sequence of sent units, split over any number of parser calls, is reported exactly and in order |
| StpRoundTrip.CarriedExactly | conn_soc/core/stp_core.c:1866-1957 | a frame makes the round trip if and only if its type is 0-4 or 7 and its payload has 1 to 2048 bytes |
| StpRoundTrip.ResendParsed | conn_soc/core/stp_core.c:418-436 | a peer left in Resync1 by an error reports every frame of a timeout's resend |
| StpRoundTrip.Searching | conn_soc/core/stp_core.c:1798-1857 | after an error the parser reports nothing and counts pattern bytes for as long as no four come in a row |
| StpRoundTrip.Found | conn_soc/core/stp_core.c:1850-1857 | the fourth in a row ends in Sync, whatever came before |
| StpRoundTrip.Skipped | conn_soc/core/stp_core.c:1826-1864 | in Sync, bytes that start neither a header nor the pattern change nothing |
| StpRoundTrip.StrayByte | conn_soc/core/stp_core.c:1826-1864 | a lone pattern byte in Sync loses the place until four come in a row |
| StpRoundTrip.HeaderExactly | conn_soc/core/stp_core.c:1866-1973 | for any four bytes that start like a header: an error exactly when the length is over 2048, or the type is no firmware one and the last byte is not the low byte of the sum of the others; otherwise a firmware message, an acknowledgement or a payload with those very fields |
| StpRoundTrip.TrailerDecides | conn_soc/core/stp_core.c:2021-2055 | a frame is reported if and only if its last two bytes are the CRC of its payload, low byte first; otherwise nothing is, the call fails and the parser looks for the pattern |
| StpRoundTrip.OnlyGenuine | conn_soc/core/stp_core.c:1790-2055 | whatever bytes arrive, damaged or not, in any calls: every packet and acknowledgement reported stands in them with a right header checksum and a right CRC |
| GoBackN.AcceptedIsNext | conn_soc/core/stp_core.c:1013-1036 | a packet that carries the expected number is the next one sent, not an older or newer one with the same 3 bits, and its piggybacked ack is genuine |
| GoBackN.TakeAckKept | conn_soc/core/stp_core.c:924-960 | a genuine acknowledgement moves the sender up to exactly the count the receiver had accepted |
| GoBackN.SendStream | conn_soc/core/stp_core.c:2563-2598 | a send keeps what holds of the stream it extends |
| GoBackN.TimeoutKeeps | conn_soc/core/stp_core.c:380-449 | a timeout at any moment keeps both streams |
| GoBackN.AcceptKeeps | conn_soc/core/stp_core.c:1013-1036 | so does accepting a packet, whether or not it could be queued |
| GoBackN.RejectKeeps | conn_soc/core/stp_core.c:1121-1141 | so does refusing one |
| GoBackN.NextKeeps | conn_soc/core/stp_core.c:972-1160 | every step of the two endpoints and their links keeps the protocol invariant |
| GoBackN.InOrder | conn_soc/core/stp_core.c:924-1141 | in every run from a reset, whatever queueing flags it leaves, over FIFO links that lose anything, with timeouts at any moment and every window up to 7, each end has accepted a prefix of what the other's send accepted: in order, no gap, no duplicate, at most a window behind |
| StpLink.WireTransfer | conn_soc/core/stp_core.c:1790-2055 | an undamaged stretch of wire, cut into parser calls anywhere, moves the receiving end exactly as the units it encodes would one by one, whatever becomes of each accepted packet |
| StpLink.SendsCarried | conn_soc/core/stp_core.c:2563-2598 | what a send of a packet the link can carry puts on the wire is a stream the peer's parser reports in full |
| StpLink.ResendsCarried | conn_soc/core/stp_core.c:418-436 | a resend of packets the link can carry is a stream the peer's parser reports in full |
| GoBackNRecovery.DataDrain | conn_soc/core/stp_core.c:1013-1141 | delivering a whole resend brings the receiver up to the last packet sent, and it answers except in one case |
| GoBackNRecovery.Recovery | conn_soc/core/stp_core.c:380-449 | one timeout followed by loss-free delivery: the receiver has everything exactly when it had already or the retry limit is not passed; the sender's queue empties exactly when it was empty, or also the receiver still missed a packet or had queued its last one |
| GoBackNRecovery.SettledIdle | conn_soc/core/stp_core.c:1013-1141 | from every state of the invariant, once what is in flight has arrived, and what that is answered with, both links are idle and the invariant holds |
| GoBackNRecovery.RecoveryFromAny | conn_soc/core/stp_core.c:380-449 | so from every reachable state below the retry limit one further timeout, with nothing lost after it, leaves the receiver with everything ever sent |
| GoBackNRecovery.ManyEpisodes | conn_soc/core/stp_core.c:380-449 | any number of stretches of anything at all, each firing the timer at most the retry limit and followed by one recovery, leave everything delivered, nothing outstanding and the retry count at 0, as long as clients have room |
| GoBackNRecovery.EpisodesFromReset | conn_soc/core/stp_core.c:322-352 | so from a reset on |
| GoBackNRecovery.UnansweredRounds | conn_soc/core/stp_core.c:380-449 | in the remaining case any number of timeouts with loss-free delivery leave the queue as long as it was, and count up to one past the retry limit |
| GoBackNRecovery.UnansweredEnds | conn_soc/core/stp_core.c:1013-1036 | one new packet that is admitted empties the queue and is delivered |
| GoBackNRecovery.UnansweredReachable | conn_soc/core/stp_core.c:1038-1045 | that case is reached from reset by eight packets of 2048 bytes whose client reads nothing: seven fit its ring, the eighth does not, and its acknowledgement is lost |
| StpRxRing.RxRing.Add | conn_soc/core/stp_core.c:677-708 | a packet that fits beside one free cell is appended; any other changes neither bytes nor indices |
| StpRxRing.RxRing.Receive | conn_soc/core/stp_core.c:2722-2776 | the oldest bytes are copied to the caller and removed, as many as the code's arithmetic gives |
| StpRxRing.TakenIsMin | conn_soc/core/stp_core.c:2737-2771 | that is min(asked, stored) exactly when the request past the ring's end fits 16 bits, or its truncation still covers the wrapped bytes |
| StpRxRing.TakenFallsShort | conn_soc/core/stp_core.c:2754-2768 | a request of 65537 bytes that gets 1 of 11 stored bytes |
| StpRxRing.Conservation | conn_soc/core/stp_core.c:677-708 | over every run, delivered followed by stored is what was accepted |
| PsmOps.OpRing.Put | conn_soc/linux/include/osal.h:75-84 | appends, or drops the element when the ring is full |
| PsmOps.OpRing.Get | conn_soc/linux/include/osal.h:86-99 | takes the oldest, with the index reset of an emptied ring |
| PsmOps.PsmQueues.IsRedundant | conn_soc/core/psm_core.c:214-257 | true exactly when the id is of the class of the youngest pending op, or of the op last taken when none is pending |
| PsmOps.PsmQueues.CleanUpRound | conn_soc/core/psm_core.c:277-295 | one round of the clean-up, and whether it makes progress |
| PsmOps.PsmQueues.CleanUpActive | conn_soc/core/psm_core.c:262-299 | the loop's result in closed form, and exactly when it does not end |
| PsmOps.PsmQueues.PutActiveOp | conn_soc/core/psm_core.c:301-359 | putting an op: folded away, queued and cleaned up, or given back |
| PsmOps.PsmQueues.GetActiveOp | conn_soc/core/psm_core.c:158-184 | taking an op records its id |
| PsmOps.PsmQueues.GetFreeOp | conn_soc/core/psm_core.c:361-374 | the oldest free op is handed out |
| PsmOps.PsmQueues.PutFreeOp | conn_soc/core/psm_core.c:337-343 | an op goes back behind the free ones |
| PsmOps.PsmQueues.DrainActive | conn_soc/core/psm_core.c:1247-1260 | a forced wake-up moves every pending op to the free ring and leaves the id last taken |
| PsmFolding.PutFolded | conn_soc/core/psm_core.c:301-359 | a request on a folded queue leaves it folded with the requested class pending, and the clean-up ends |
| PsmFolding.TakeFolded | conn_soc/core/psm_core.c:158-184 | taking an op undoes the previous one and leaves the pending class alone |
| PsmFolding.StallsExactly | conn_soc/core/psm_core.c:277-295 | on a queue of at most two the clean-up spins if and only if nothing was taken since reset, two are pending, and the younger is the other kind of wake-up; the queue stays at most two exactly otherwise |
| PsmFolding.FoldedFromReset | conn_soc/core/psm_core.c:158-359 | every run from reset: at most two pending and the pending class is the class last asked for, or nothing was asked for since reset or the last drain and the queue is empty; once an op was taken the clean-up ends and the queue is folded unless its head repeats the op last taken; once two were taken it is folded |
| PsmFolding.WakeupStands | conn_soc/core/psm_core.c:1247-1263 | in every run from reset, after the wake-up a forced wake-up submits, whatever others did since its drain, the queue will end awake until somebody asks for sleep or empties it again |
| PsmFolding.FirstTakeDecides | conn_soc/core/psm_core.c:158-257 | in every run from reset, taking the first op leaves the queue folded in all continuations if and only if it was alone or the next one asks for the opposite |
| PsmFolding.RequestsPreserved | conn_soc/core/psm_core.c:214-359 | over every interleaving from a folded queue: alternation, head opposite to the op last taken, at most two pending, clean-up ends, and the pending class is the class last asked for unless a drain dropped it and nothing was asked for since, when the queue is empty |
| PsmFolding.EmptyIsFolded | conn_soc/core/psm_core.c:214-257 | an empty queue is folded exactly once an op has been taken |
| PsmFolding.UnfoldedAtFirst | conn_soc/core/psm_core.c:219-220 | before that, two forced wake-ups at once queue two equal requests, and taking the first leaves the queue not folded |
| PsmFolding.OpsConserved | conn_soc/core/psm_core.c:158-359 | from reset, over every interleaving, each of the 16 op instances is in exactly one place and no ring overflows |
| PsmFolding.BootConserved | conn_soc/core/psm_core.c:788-803 | after a reset each op instance is in exactly one place |
| PsmFolding.NeverSpinsOnceTaken | conn_soc/core/psm_core.c:262-299 | in no run does the clean-up spin after an op has been taken |
| PsmFolding.SpinsAtFirst | conn_soc/core/psm_core.c:277-295 | from reset it does after two forced wake-ups at once and a HOST_AWAKE |
| PsmRedundancy.CarryAgrees | conn_soc/core/psm_core.c:131-150 | after an op is taken, state and op agree if and only if it was not a sleep turned down |
| PsmRedundancy.MoveOrderly | conn_soc/core/psm_core.c:1234-1330 | every step but a failed exchange keeps: the only disagreement is a sleep refused in ACT; while a switch of the monitor has emptied the queue and the chip is asleep or on its way there, a wake-up comes first |
| PsmRedundancy.SmoothKeeps | conn_soc/core/psm_core.c:1234-1330 | every run without an upsetting step keeps, besides: whenever state and last op disagree with the monitor on, or its wake-up asked for, an op is pending, and the youngest one at that point is a wake-up |
| PsmRedundancy.FoldedAway | conn_soc/core/psm_core.c:214-257 | a request folded away with nothing pending would have told WMT nothing if and only if state and last op agree, or it was a sleep and the monitor is off |
| PsmRedundancy.FoldedAwayRedundant | conn_soc/core/psm_core.c:214-257 | in every run from reset without an upsetting step, refused sleeps and switches of the monitor included, a request folded away with nothing pending would have told WMT nothing |
| PsmRedundancy.HarmlessExactly | conn_soc/core/psm_core.c:1306-1330 | that holds for all continuations of a state exactly when what SmoothKeeps keeps holds of it |
| PsmRedundancy.UpsetsExactly | conn_soc/core/psm_core.c:732-763 | a step other than a failed exchange leaves it holding if and only if it is neither a sleep request tested earlier, queued behind the wake-up of a call that enables the monitor and not folded, nor a lone sleep op cancelled in ACT with the monitor on |
| PsmRedundancy.SleepTestedEarlier | conn_soc/core/psm_core.c:747-754 | a run from reset with such a request: the monitor is on, the chip awake, and a sleep that would have been carried out is folded away |
| PsmRedundancy.SleepCancelled | conn_soc/core/psm_core.c:133-139 | and one with such a cancellation |
| HoldFifo.Fifo.HoldData | conn_soc/core/psm_core.c:596-628 | what a hold leaves in the FIFO, for every length |
| HoldFifo.Fifo.ReleaseRecord | conn_soc/core/psm_core.c:648-673 | one pass of the release loop on any bytes, with its stale variables |
| HoldFifo.Fifo.ReleaseData | conn_soc/core/psm_core.c:636-676 | the release loop |
| HoldFifo.HoldFramed | conn_soc/core/psm_core.c:606-627 | for packets up to 2000 bytes the FIFO stays a whole number of records, and an overflow drops only whole older ones |
| HoldFifo.ReleaseFramed | conn_soc/core/psm_core.c:636-676 | a release hands out the oldest records, at most the limit, unchanged and in order, and leaves the rest framed |
| HoldFifo.ReleaseOneTooLong | conn_soc/core/psm_core.c:653-671 | a longer record is never handed out: the FIFO is emptied, or stale bytes are sent and it is left off the boundary |
| HoldFifo.ReleaseExactly | conn_soc/core/psm_core.c:636-676 | for any records in the FIFO, a release hands out the oldest ones as it should if and only if every record it reaches has at most 2000 bytes |
| HoldFifo.HoldRelease | conn_soc/core/psm_core.c:596-676 | a packet held in an empty FIFO comes back if and only if it has at most 2000 bytes |
| PsmMachine.StpPsm.TellStp | conn_soc/core/psm_core.c:901-1035 | WMT's report in each state and for each action |
| PsmMachine.StpPsm.TellWmt | conn_soc/core/psm_core.c:1037-1137 | an op in each state, with what is told to WMT |
| PsmMachine.StpPsm.WaitWmtEvent | conn_soc/core/psm_core.c:834-899 | the end of the wait, with its priorities among the event flags |
| PsmMachine.StpPsm.SendData | conn_soc/core/stp_core.c:2476-2500 | the gate: release and send, or hold |
| PsmMachine.NextGated | conn_soc/core/psm_core.c:542-565 | every lock-held region keeps: traffic blocked exactly outside ACT, SLEEP_EN and WAKEUP_EN never both, each only in the state that awaits it |
| PsmMachine.RunGated | conn_soc/core/psm_core.c:834-1137 | so does every run |
| PsmMachine.InactEntered | conn_soc/core/psm_core.c:861-886 | INACT is entered only from ACT_INACT by a confirmed sleep or from INACT_ACT by a roll-back |
| PsmMachine.OfferedInAct | conn_soc/core/stp_core.c:2476-2500 | a client's packet is sent at once, behind the oldest held ones, exactly in ACT |
| PsmMachine.OfferKeepsOrder | conn_soc/core/stp_core.c:2476-2500 | traffic stays in order exactly while at most twenty packets (or copies of the one sent) are held at a direct send, and the FIFO has room for a held one |
| PsmMachine.Overtaken | conn_soc/core/stp_core.c:2476-2500 | a run from reset in which 41 packets are held and the next direct send overtakes the last of them |
| PsmMachine.OthersKeepOrder | conn_soc/core/psm_core.c:834-899 | no other step but a reset reorders or loses traffic |
| PsmMachine.ReleasedExactly | conn_soc/core/psm_core.c:636-676 | the twenty oldest held packets, or all, are sent exactly at a step that enters ACT, leaves it, or carries out an op to wake up in it; no other step but a client's packet or a reset touches the traffic |
| PsmMachine.WakeupsDrain | conn_soc/core/psm_core.c:1037-1076 | n ops to wake up an awake chip let 20 n held packets out in order |
| PsmMachine.SleepOutcome | conn_soc/core/psm_core.c:834-1035 | whatever WMT reports to a sleep op, in any order: INACT if the sleep is among the reports, else ACT if a roll-back is, else the wait ends where it was |
| PsmMachine.WakeOutcome | conn_soc/core/psm_core.c:834-1035 | and to an op to wake up: ACT if a wake-up is among them, else INACT if a roll-back is |
| PsmMachine.OpAnswered | conn_soc/core/psm_core.c:1037-1137 | an op fails if and only if it is a sleep turned down, comes during an exchange or is none of the queue's; WMT is told of it if and only if the state changes |
| PsmMachine.ResetOpens | conn_soc/core/psm_core.c:767-822 | after a reset a packet is sent at once with nothing before it, no report is pending and no op leaves ACT |
| PsPolicy.PolicyLock.DisablePsmMonitor | conn_soc/core/wmt_lib.c:164-186 | an operation starts: monitor off, busy exactly when it succeeds |
| PsPolicy.PolicyLock.EnablePsmMonitor | conn_soc/core/wmt_lib.c:188-198 | it ends and the policy applies |
| PsPolicy.PolicyLock.PsCtrl | conn_soc/core/wmt_lib.c:491-505 | the policy call, deferred while busy |
| PsPolicy.PolicyLock.PsmHold | conn_soc/core/wmt_lib.c:542-556 | taking a keep-awake reference |
| PsPolicy.PolicyLock.PsmRelease | conn_soc/core/wmt_lib.c:557-576 | dropping one, with the underflow clamp |
| PsPolicy.PolicyLock.PsEnable | conn_soc/core/wmt_lib.c:508-515 | the enable at the end of chip init, deferred while busy |
| PsPolicy.PolicyLock.PsDisable | conn_soc/core/wmt_lib.c:580-587 | the disable, skipped while busy |
| PsPolicy.AlwaysArbitrated | conn_soc/core/wmt_lib.c:164-198 | in every interleaving, whichever wake-ups fail: monitor on implies no operation in flight, no keep-awake reference and gPsEnable set |
| PsPolicy.Remembers | conn_soc/core/wmt_lib.c:491-576 | in every interleaving, whichever wake-ups fail: the count is the number of references taken and not yet dropped, counted over the events alone, the policy is the one last configured, and with the monitor on all references have been dropped |
| PsPolicy.OnExactly | conn_soc/core/wmt_lib.c:164-198 | while wake-ups succeed and nobody calls ps_disable: the monitor is on if and only if no operation is in flight, no reference is outstanding and the policy was last configured for it |
| PsPolicy.Answers | conn_soc/core/wmt_lib.c:557-595 | a release fails if and only if no reference is outstanding; an operation is refused, and outside one a ps_disable fails, if and only if the policy is for power saving and the chip cannot be woken |
| PsPolicy.Deferral | conn_soc/core/wmt_lib.c:491-576 | any sequence of ps_ctrl, hold, release and ps_enable during an operation leaves the same state and returns the same answers as the same calls made right after it |
| PsPolicy.DisableIsLost | conn_soc/core/wmt_lib.c:580-587 | ps_disable as the last such call is lost exactly when policy and references by then ask for the monitor |
| WmtPower.WakeControl.PwrSv | conn_soc/core/wmt_core.c:1183-1393 | which exchange is sent, what its outcome records, and that the PSM is called back with the action it queued |
| PowerSystem.KeepsSynchronised | conn_soc/core/psm_core.c:834-1137 | every step keeps PSM thread and WMT thread agreed on what is in progress |
| PowerSystem.KeepsChip | conn_soc/core/wmt_lib.c:749-782 | every step keeps the host's view of the chip true, and a remembered wake request of a sleeping chip genuine |
| PowerSystem.KeepsLocked | conn_soc/core/psm_core.c:1289-1330 | every step keeps the disable bit equal to the policy's view, the policy arbitrated, and everything else held off while a call forces the chip awake |
| PowerSystem.KeepsCovered | conn_soc/core/wmt_lib.c:164-198 | every step keeps: a call is forcing, or the monitor is on, or the PSM is in ACT, or no operation is in flight and the next one will force it there |
| PowerSystem.StoppedInAct | conn_soc/core/psm_core.c:1289-1304 | in every run from boot the PSM is in ACT whenever the monitor is off and no call is forcing |
| PowerSystem.CoveredExactly | conn_soc/core/wmt_lib.c:146-198 | a state is safe for operations in all its continuations if and only if it is covered |
| PowerSystem.NoSleepUnderOp | conn_soc/core/wmt_lib.c:146-198 | in every run, from a DISABLE_PSM_MONITOR that returned 0 to its ENABLE_PSM_MONITOR the chip is awake, PSM is in ACT and no SLEEP reaches WMT |
| PowerSystem.RightExchange | conn_soc/core/wmt_core.c:1196-1203 | in every run HOST_AWAKE is chosen for a sleeping chip only if it asked; the choice is the one the chip then awaits if and only if the line could be read, the interrupt was taken, or the chip did not ask |
| PowerSystem.ExchangeArrives | conn_soc/core/wmt_core.c:1196-1203 | chosen with the line read right (HOST_AWAKE exactly when it is asserted, whichever request was folded), the exchange is understood when it arrives if and only if the line was up already or was not raised in between |
| PowerSystem.CallbackAccepted | conn_soc/core/wmt_core.c:1380-1392 | PSM accepts the queued action and goes where it was going |
| PowerSystem.SleepingChipHeard | conn_soc/core/wmt_lib.c:749-782 | in every run from boot a chip that raises its line while PSM is in INACT has its interrupt taken, and the next wake-up sent is HOST_AWAKE, even if the line cannot be read, and wakes it |
| PowerSystem.TakenOnce | conn_soc/mt6572/wmt_plat_alps.c:255-275 | the interrupt is taken at most once until the next sleep is recorded |
| PowerSystem.PulseUninterrupted | conn_soc/core/wmt_lib.c:840-862 | a wake-up asked for with WAKEUP is not interrupted until then |
| PowerSystem.RequestAnswered | conn_soc/core/wmt_lib.c:765-777 | a recorded wake-up clears the remembered request until the interrupt is taken again |
| PowerSystem.StaleTest | conn_soc/core/psm_core.c:1048-1053 | leaving ACT on an earlier monitor test is safe in all continuations if and only if by then a call is forcing the chip awake, or the monitor is on, or no operation is in flight and the policy asks for the monitor |
| PowerSystem.StaleTestRuns | conn_soc/core/psm_core.c:1048-1053 | two runs that miss it: an operation in between, and a ps_ctrl(0) in between with an operation after it |
| PowerSystem.WakeGivenUp | conn_soc/core/psm_core.c:1261-1304 | a forced wake-up that runs out of retries is safe in all continuations if and only if the PSM is in ACT after all or the policy it leaves asks for the monitor |
| PowerSystem.WakeGivenUpRun | conn_soc/core/wmt_lib.c:491-498 | a run in which ps_ctrl(0) leaves a sleeping chip to the next operation |
| Vfifo.FullOrEmpty | btif/btif_dma_plat.c:1043-1047 | equal indices mean empty or full, and the wrap bits tell which |
| BtifDma.TxChannel.SendData | btif/btif_dma_plat.c:810-875 | the accepted bytes are appended to what the controller drains, min(asked, room) of them; during a flush, or for no data, nothing is handed over |
| BtifDma.TxChannel.Drain | btif/btif_dma_plat.c:810-875 | the controller drains exactly the accepted bytes, in order |
| BtifDma.RxChannel.Round | btif/btif_dma_plat.c:1038-1076 | one round computes the exact fill, passes those bytes on, advances the read pointer to the write pointer it read, and keeps the remembered wrap bit equal to the read pointer's |
| BtifDma.RxChannel.IrqHandler | btif/btif_dma_plat.c:1023-1090 | at the end every byte the controller wrote has been passed on, once and in order, also those that arrived meanwhile |
| BtifDma.RealLength | btif/btif_dma_plat.c:1043-1047 | the computed length is the fill, from empty to full, if and only if the remembered wrap bit is the read pointer's |
| BtifBbs.BbsRing.Write | btif/mtk_btif.c:2591-2641 | below the limit a write appends what fits; one that takes bytes and brings the fill to the limit empties the ring; the answer is how many fitted |
| BtifBbs.BbsRing.WrDirect | btif/mtk_btif.c:2701-2723 | the wrapped copy appends |
| BtifBbs.BbsRing.Read | btif/mtk_btif.c:2643-2699 | the oldest min(asked, stored) bytes are copied out and removed |
| BtifBbs.BbsRing.Consume | btif/mtk_btif.c:2099-2172 | everything stored is handed to the callback |
| BtifBbs.Accounted | btif/mtk_btif.c:2591-2699 | over any run of writes, reads and hand-overs, what came out followed by what is stored is what the writes took if and only if no write brought the fill to the limit |
| BtifBbs.AllTaken | btif/mtk_btif.c:2591-2625 | and they took all they were given if and only if each found the room |
| BtifBbsShared.CopyIntact | btif/mtk_btif.c:2701-2716 | the producer's copy disturbs no stored byte and no hand-over in progress |
| BtifBbsShared.PublishIntact | btif/mtk_btif.c:2701-2723 | publishing puts the copied bytes behind the stored ones and keeps every byte |
| BtifBbsShared.CheckIntact | btif/mtk_btif.c:2630-2638 | the test of the fill keeps every byte if and only if the fill it finds, which the consumer may have lowered meanwhile, is below the limit |
| BtifBbsShared.PassRestIntact | btif/mtk_btif.c:2137-2155 | the second stretch of a hand-over completes it |
| BtifBbsShared.FreshIntact | btif/inc/mtk_btif.h:326-330 | an initialised ring, nothing published, accounts for every byte |
| BtifBbsShared.WriteAlone | btif/mtk_btif.c:2591-2641 | with the consumer at rest the producer's steps are the write of BtifBbs |
| BtifBbsShared.ConsumeAlone | btif/mtk_btif.c:2099-2172 | with the producer at rest the consumer's steps hand over everything stored |
| BtifBbsShared.OnceInOrder | btif/mtk_btif.c:2099-2172 | in every interleaving of producer and consumer below the limit the callback gets a prefix of what was published, and all of it once drained |
| BtifClock.BtifDriver.BtifExitDpIdle | btif/mtk_btif.c:1606-1636 | the way to ON from each state, with its references |
| BtifClock.BtifDriver.BtifEnterDpIdle | btif/mtk_btif.c:1649-1780 | the way to DPIDLE, and the failures that leave the state alone |
| BtifClock.BtifDriver.BtifOpen | btif/mtk_btif.c:1540-1568 | open |
| BtifClock.BtifDriver.BtifClose | btif/mtk_btif.c:1571-1599 | close |
| BtifClock.BtifDriver.BtifSuspend | btif/mtk_btif.c:262-305 | suspend, refused in ON |
| BtifClock.BtifDriver.BtifResume | btif/mtk_btif.c:395-416 | resume |
| BtifClock.CallBalanced | btif/mtk_btif.c:1454-1780 | a call keeps 1 controller and 2 DMA references in ON and none elsewhere if and only if it is not an open of a driver that is on while closed, nor a return from suspend with a busy transmitter |
| BtifClock.AnswerMeans | btif/mtk_btif.c:1540-1780 | what each answer tells about the state reached |
| BtifClock.RunBalanced | btif/mtk_btif.c:1454-1780 | so every run without such a call keeps them |
| BtifClock.DisciplinedIsLeakFree | btif/mtk_btif.c:2830-2866 | a client that sends only while open, with a transmitter that drains, makes no such call |
| BtifClock.LeaksReachable | btif/mtk_btif.c:1540-1568 | both kinds can be reached from the initial state |
| H4Bridge.Bridge.PumpToVhci | tools/stpbt-vhci-bridge.c:183-202 | the loop ends on every input and writes exactly the packets the pump function finds |
| H4Bridge.Bridge.Receive | tools/stpbt-vhci-bridge.c:304-311 | the accumulate step, with its overflow reset |
| H4Bridge.LengthRead | tools/stpbt-vhci-bridge.c:163-180 | for packets built from their fields, event, ACL and SCO, with any payload and anything behind them, the length found is theirs |
| H4Bridge.GarbageSkipped | tools/stpbt-vhci-bridge.c:183-202 | bytes that start no packet are skipped |
| H4Bridge.Reframed | tools/stpbt-vhci-bridge.c:159-202 | any stream of packets built from their fields, of at most 6145 bytes, cut into any reads of at most 2048 is written as exactly those packets, in order, and the accumulator never overflows |
| H4Bridge.PrefixHeld | tools/stpbt-vhci-bridge.c:304-311 | part of a packet of any length, however cut, stays in the accumulator while it fits |
| H4Bridge.BoundExactly | tools/stpbt-vhci-bridge.c:163-168 | a read of at most 2048 bytes on top of part of a packet never overflows if and only if the packet has at most 6145 |
| H4Bridge.TooLongIsLost | tools/stpbt-vhci-bridge.c:304-311 | reads by which a packet of 6146 bytes is thrown away |
| H4Bridge.PumpAppend | tools/stpbt-vhci-bridge.c:183-202 | on any bytes, pumping in two goes finds what pumping at once finds |
| H4Bridge.ChunkingIrrelevant | tools/stpbt-vhci-bridge.c:304-311 | while nothing overflows, how the stream is cut makes no difference, garbage included |

## Left out

- STP mandatory and SDIO modes, firmware messages, core dumps, in-band reset and the whole-chip reset after the retry limit. The parser's firmware-message state absorbs all input in the model; reaching the limit only stops the timer there.
- STP readiness, the NAK and delimiter variants (never enabled), timers as clocks: a timeout is a step that may happen at any moment. The interface is taken to write everything it is given.
- Bit errors on the wire below the frame: the links of `GoBackN` lose whole units; what the parser does with a damaged one is in `StpParser`.
- StpEndpoint.SendCoherent: payload lengths are mathematical, so the 32-bit overflow of header plus length in the admission test is not modelled.
- PsmMachine.StpPsm.SendData: held packets are whole records, so what a packet over 2000 bytes does to the FIFO is followed in `HoldFifo` only.
- GoBackNRecovery.UnansweredRounds: the receiver's count of refused frames and the chip reset it asks for past ten of them (conn_soc/core/stp_core.c:1121-1160). With more than one frame outstanding it comes before the sender's retry limit.
- PsmRedundancy.FoldedAwayRedundant: runs in which WMT rolls an exchange back or never answers it. Calls that switch the monitor are one at a time, as under the policy lock; the STP core's own calls that disable it without that lock, on errors and when the link becomes ready, are not interleaved with them.
- PsmOps.OpRing.Put: the ring counters are unbounded; in the driver they wrap at 32 bits, which the mask makes equivalent. The ops' completion signals are left out: PSM ops are never waited for. The EXIT op is never queued.
- The PSM reset while the thread holds an op; `PsmMachine` has it as a step with no op in progress. Quick power save and the traffic-density bits, which only suppress sleep requests.
- PowerSystem.NoSleepUnderOp: an exchange the chip understands succeeds, and one it does not is never answered; the driver reports a failed exchange to the PSM as done and asserts the chip, which is the whole-chip reset left out above. Monitor test and transition are one step, and a forced wake-up does not fail; `StaleTest` and `WakeGivenUp` say exactly what happens otherwise.
- PowerSystem.ExchangeArrives: the wake interrupt and its callback are one step.
- The branches of the PSM notification handler for core dump, STP not ready and SDIO.
- WMT op queues with caller timeouts, WMT command tables, function on/off, configuration parsing.
- Register access, memory barriers, allocation, interrupts bumping the clock references for their own duration, and the clock framework's failures. Both BTIF channels are in DMA mode. The static vFIFO reset and register dumps are not modelled.
- BtifBbsShared.CheckIntact: what a consumer caught in the middle of a hand-over does after a wipe is not followed.
- BtifClock.BtifDriver.BtifEnterDpIdle: the wait for the transmitter is its outcome, the elapsed-time exit counting as drained, as in the code.
- The bridge's governor, HCI shims and address programming; the diagnostic print of the length function.
