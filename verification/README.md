# Protocol cores of the PCAN-USB / UDS bench firmware, modelled and proved in Dafny

The firmware turns an ESP32-S3 into two devices: a PCAN-USB adapter that carries CAN frames between a USB host and
the bus, and a bench ECU that answers UDS requests over ISO-TP. This project models its four protocol cores and proves
what every run of them keeps. `dafny verify dfyconfig.toml` checks the whole project.

Each core comes in two layers. A specification layer gives every operation as a function on values, with the same
branches, constants and error results as the C code. An object layer has the C code's own form, classes whose methods
update fields and arrays in place, and each of its methods is proved to be the corresponding function. The results about
whole runs are lemmas about the functions.

| core | specification and results | objects |
|---|---|---|
| ISO-TP transport (`main/isotp.c`) | `IsoTp`, `IsoTpStream`, `IsoTpLoss`, `IsoTpFirstFrame`, `IsoTpDelivery`, `IsoTpDuplex`, `IsoTpLiveness`, `IsoTpTimed`, `IsoTpTimely`, `IsoTpLate`, `IsoTpTimeout`, `IsoTpReception`, `IsoTpFunctional` | `IsoTpLink` |
| UDS server (`main/uds.c`) | `Uds`, `UdsRuns`, `UdsLimits`, `UdsDelay`, `UdsService`, `UdsReplies` | `UdsServer` |
| EP2 record codec and clock (`main/pcan_msg.c`, `main/pcan_time.c`) | `PcanTime`, `PcanMsg`, `PcanHost` | `PcanBatch` |
| USB bridge (`main/usb_glue.c`, `usb_tx_task` of `main/main.c`) | `UsbIn`, `UsbInProgress`, `UsbOut`, `UsbOutProgress`, `UsbPath` | `UsbIn.GlueIn`, `UsbOut.GlueOut`, `UsbTxTask`, `UsbSend` |
| frame ring (`main/ringbuf.c`) | `RingSteps`, `RingProgress` | `RingBuf` |
| CAN transmit ownership and quiesce (`main/main.c`, events of `main/twai_hal.c`) | `BridgeModel`, `BridgeSafety`, `BridgeProgress`, `BridgeDuplicate` | `BridgeTasks` |
| from the USB host to the bus | `CanPath`, `CanPathProgress` | |
| from the bus to the USB host | `HostPath`, `HostPathProgress` | |

`Words` holds the fixed-width words, little-endian access and a few facts about sequences and division.

## How the environments are modelled

- Two ISO-TP links are joined by FIFO queues of frames, so a transmit never re-enters the link. Clock readings, the
  result of each transmit, and the random seed are arguments; a clock reading belongs to its event and is unconstrained
  except in `IsoTpTimeout` and `IsoTpTimed`, where it is the true time modulo 2^32. In `IsoTpTimed` and the two modules
  above it links are served at least every w ms: no frame, no completed message and no poll waits longer. `IsoTpLoss` and `IsoTpFunctional` follow the bench loop's
  discipline that a completed message is collected before the next frame is fed.
- The ring is a machine of single semaphore, lock, copy and index steps of one producer, one consumer and the reader of
  the drop counter.
- TinyUSB callbacks are atomic relative to `usb_tx_task`; deferred calls may be lost, repeated or arbitrarily late; an
  open comes only when the interface is not open; a completion comes only for a transfer under way; the host may read a
  transfer whose completion never arrives.
- The TWAI driver is an environment: it refuses a frame unless running, sends or fails what it holds, goes bus-off,
  drops its copy when recovery starts, forgets copy and alerts at a teardown, and cannot be uninstalled while recovering.
  `can_tx_task` outranks `ctrl_task` on the same core, so its drain-then-submit is one step (the driver holds nothing at
  that moment, so the submit does not block); all other steps interleave freely.

## Where the code differs from what is said of it

- Two links that send to each other can both run into N_Cr before either may send its next frame, when each asks for a
  separation time no shorter than the other's N_Cr (`IsoTpLiveness.AlwaysFinishesIff`).
- N_Cr counts against the separation time the link itself asks for: a link served every w ms needs an N_Cr of more than
  3w plus that time less one millisecond, and an N_Bs of more than 2w, or a poll can meet a timeout although nothing is
  lost (`IsoTpLate.TimesOutIff`).
- A poll that sends the last frame of a message returns before it looks at the receive half (main/isotp.c:426-429), so a
  link that keeps sending two-frame messages can leave a dead reception in place for as long as it does
  (`IsoTpReception.ReceptionsEndIffLimited`).
- A single lost first frame makes the receiver hand up a message that was never sent (`IsoTpFirstFrame.WholeOnlyIff`).
- An accepted multi-frame send is bounded only for `wft_max` up to 254: the WAIT counter is eight bits wide, and with
  255 it wraps before the comparison can succeed (`IsoTpTimeout.SendsEndIffWaitLimitBelow255`).
- A twelve-bit first-frame length never exceeds 4095, so the overflow answer at main/isotp.c:259-264 is never given
  (`IsoTp.FirstFrameNeverOverflows`).
- The declared size of a download is compared with a 32-bit sum; sizes above 0xFFFFFBFF can be overfilled
  (`UdsLimits.SizeKeptIff`).
- The S3 age is a 32-bit sum too; one poll longer than 2^32-5000 ms can make it wrap (`UdsLimits.IdlingLocksIff`).
- ECUReset restarts the device and with it clears the attempt count and the delay, so the limit of three rejected keys
  per ten seconds holds only without restarts (`UdsLimits.DelayHoldsIff`).
- main/pcan_proto.h:224-235 gives every self-received record a trailer; the encoder omits it on remote frames, as the
  host's decoder requires, while the host's own encoder writes it there (`PcanHost.HostReadsBatch`,
  `PcanHost.DecodesWhatHostEncodes`).
- The restart after a bus-off recovery is tried once: if the driver refuses it, nothing but a reconfigure brings the
  controller back (`BridgeProgress.RefusedRestartIsFinal`).
- A frame confirmed as sent was sent exactly once only if no success alert was erased by a teardown
  (`BridgeSafety.ExactlyOnceIff`, `BridgeDuplicate.FrameSentTwice`).

## Model

| member | source | states |
|---|---|---|
| IsoTp.StminToMs | main/isotp.c:58-63 | The least whole number of milliseconds that is not shorter than what the raw byte means in microseconds, reserved values meaning 127 ms; never more than 127, and zero only for zero |
| IsoTp.EffectiveCfg | main/isotp.c:128-148 | Given values are kept, a zero means 1000 ms, 1000 ms or 8 WAITs, no configuration means pad 0xCC, bs 0 and STmin 0; so the timers and the WAIT limit in force are never zero |
| IsoTp.FirstFrameNeverOverflows | main/isotp.c:252-264 | A first frame cannot declare more than 4095 bytes, so the overflow answer is never given |
| IsoTpLink.LinkObject.constructor | main/isotp.c:117-159 | A fresh link is idle in both halves under the effective configuration |
| IsoTpLink.LinkObject.Send | main/isotp.c:164-210 | Fields, buffer, emitted frame and result of a send; a refused or failed send leaves no trace but the reset |
| IsoTpLink.LinkObject.SingleFrame | main/isotp.c:216-242 | A single frame lands in the receive buffer in place; a broadcast never disturbs a reassembly or an uncollected message |
| IsoTpLink.LinkObject.FirstFrame | main/isotp.c:244-278 | A first frame restarts reassembly and is answered by one grant; a short or small one changes nothing |
| IsoTpLink.LinkObject.ConsecutiveFrame | main/isotp.c:280-304 | Wrong sequence numbers and short frames abort the reception; anything else goes on to AcceptCf |
| IsoTpLink.LinkObject.AcceptCf | main/isotp.c:306-330 | The chunk is appended in place, completion is flagged, and every full block is answered by a grant |
| IsoTpLink.LinkObject.FlowControl | main/isotp.c:333-362 | CTS, WAIT with its 8-bit budget, and every other flow status |
| IsoTpLink.LinkObject.SendNextCf | main/isotp.c:409-437 | The next consecutive frame is cut from the in-place buffer and block, sequence number and timers advance |
| IsoTpLink.LinkObject.PollSend | main/isotp.c:403-438 | N_Bs expiry, pacing and the early return of the send half |
| IsoTpLink.LinkObject.PollReceive | main/isotp.c:440-446 | N_Cr expiry resets the receive half and nothing else |
| IsoTpLink.LinkObject.ReceiveMessage | main/isotp.c:452-479 | A completed message is handed up once; one that does not fit stays |
| IsoTpLink.LinkObject.OnCanFrame | main/isotp.c:364-390 | Dispatch by address and frame type; multi-frame types count only on the physical address |
| IsoTpLink.LinkObject.PollLink | main/isotp.c:395-447 | One poll of both halves |
| IsoTpStream.SendEmits | main/isotp.c:164-210 | An accepted send emits exactly the first frame of the segmentation, a refused one nothing |
| IsoTpStream.SendAcceptedIff | main/isotp.c:164-210 | A send is accepted if and only if no send is active, the message has 1 to 4095 bytes and the bus takes its first frame; then exactly that frame is out, and the half is idle (up to 7 bytes) or waits for a grant from now on; a busy half stays as it is |
| IsoTpStream.FramesArePadded | main/isotp.c:70-83 | Every frame is filled to eight bytes with the pad byte, or ends with its payload when that is 0xFF |
| IsoTpStream.PollEmits | main/isotp.c:407-438 | A poll emits the next frame of the segmentation or nothing |
| IsoTpStream.FrameEmits | main/isotp.c:364-390 | An incoming frame makes a link emit at most a flow control |
| IsoTpStream.StreamIsSegmentation | main/isotp.c:164-438 | Over any run the data frames are the segmentations of the accepted messages in order, each complete or an aborted prefix, never interleaved |
| IsoTpLoss.SfRoundTrip | main/isotp.c:181-192 | A single frame carries its payload back out |
| IsoTpLoss.FfRoundTrip | main/isotp.c:194-203 | A first frame carries its 12-bit length and six bytes back out |
| IsoTpLoss.CfRoundTrip | main/isotp.c:410-417 | A consecutive frame carries sequence number and chunk back out |
| IsoTpLoss.CfAccepted | main/isotp.c:280-331 | A consecutive frame in step extends the buffer by its chunk |
| IsoTpLoss.NetStepKeeps | main/isotp.c:244-331 | Timeouts, aborts, failed transmits, fresh sends and lost single, consecutive and flow-control frames all keep sender and receiver coupled |
| IsoTpLoss.OnlyWholeSentMessagesAreDelivered | main/isotp.c:244-331 | With first frames not lost, everything handed up was sent, whole and unmixed, in order and at most once, however many other frames are lost |
| IsoTpFirstFrame.WholeOnlyIff | main/isotp.c:244-331 | In every run everything handed up is a message that was sent, if and only if first frames are not lost |
| IsoTpFirstFrame.LostFirstFrameMixesMessages | main/isotp.c:280-331 | For any two messages of two frames, a run that loses one first frame and hands up half of each |
| IsoTpDelivery.SendKeeps | main/isotp.c:164-210 | A send keeps the coupling of offsets, sequence numbers, block counters and queues |
| IsoTpDelivery.PollKeeps | main/isotp.c:395-438 | A poll within N_Bs keeps the coupling |
| IsoTpDelivery.GrantKeeps | main/isotp.c:333-347 | Taking the outstanding grant keeps the coupling |
| IsoTpDelivery.TakeKeeps | main/isotp.c:216-331 | Taking the next data frame keeps the coupling and owes a grant exactly at block ends |
| IsoTpDelivery.CollectKeeps | main/isotp.c:452-479 | Collecting hands up the next message sent and reduces the work left |
| IsoTpDelivery.DeliveredArePrefix | main/isotp.c:323-330 | Messages handed up are the first ones sent, each with no grant (single frame), 1 (bs 0) or 1 + floor((K-1)/bs) |
| IsoTpDelivery.NeverStuck | main/isotp.c:395-438 | With nothing under way the sender is not waiting for a grant |
| IsoTpDuplex.DeliveredInOrder | main/isotp.c:164-447 | Two links over lossless queues, both sending at once: at every moment the messages handed up are the first ones sent, byte for byte, each with the promised number of flow controls, for every bs, STmin and pad byte |
| IsoTpDuplex.SendJoins | main/isotp.c:164-210 | In every reachable state, a message of 1 to 4095 bytes handed to an idle sender is the next one sent; any other send changes nothing in either direction |
| IsoTpLiveness.EveryMessageArrives | main/isotp.c:164-479 | From every reachable state, a run without timeouts that serves both links as often as there is work left hands up every message of 1 to 4095 bytes in both directions and leaves both senders idle |
| IsoTpLiveness.SentMessageArrives | main/isotp.c:164-479 | Each message of 1 to 4095 bytes handed to an idle link, in any reachable state and beside any traffic of the other direction, is handed up as the next of its direction, with its number of grants, once both links were served often enough |
| IsoTpLiveness.ServedRoundWorks | main/main.c:887-900 | A round that collects what is complete, takes a waiting frame and polls when the separation time is over moves a message forward, whatever else happens in it |
| IsoTpLiveness.AlwaysFinishesIff | main/isotp.c:403-446 | With clock readings that are free to choose, every reachable state can be continued without a timeout until all is delivered, if and only if one link's N_Cr exceeds the separation time its peer asks of it |
| IsoTpLiveness.StuckRun | main/isotp.c:403-446 | For any other configuration, a run after which each link would time out before it may send its next frame |
| IsoTpDuplex.ProgressIsBounded | main/isotp.c:395-438 | Between sends, the steps that move a message forward number at most the work left |
| IsoTpDuplex.SomethingUnderWay | main/isotp.c:395-438 | While work is left there is a message to collect, a frame to take, or a message being sent |
| IsoTpLiveness.NeverDeadlocked | main/isotp.c:403-446 | With such timers some event, at a clock reading free to choose, meets no timeout and moves a message forward while work is left |
| IsoTpDuplex.AllDelivered | main/isotp.c:426-429 | No work left means both senders are idle and everything sent was handed up |
| IsoTpTimed.NoTimeout | main/isotp.c:403-446 | Served every w ms, a poll of the sender meets no timeout with N_Bs above 2w, and none of the receiver with N_Cr above 3w and the lag of its separation time, with 32-bit clocks that wrap |
| IsoTpTimely.ArrivesInTime | main/isotp.c:164-479 | With such timers, at every moment any run can reach, each message is handed up once 2w (single frame) or 4w + K*(3w + lag) ms have passed since its send was accepted, whatever else is sent in either direction |
| IsoTpTimely.SentMessageArrivesInTime | main/isotp.c:164-479 | Each message of 1 to 4095 bytes handed to an idle link at a time t, in any state such a run can reach, joins the sent ones and has been handed up once its allowance after t is over |
| IsoTpTimely.TimeGoesOn | main/isotp.c:395-447 | From every such state a run without sends goes on to any later time, so nothing that waits holds up the clock |
| IsoTpLate.TimesOutIff | main/isotp.c:403-446 | For two links served every w ms a run that meets a timeout exists if and only if, on one side, N_Bs is at most 2w or N_Cr at most 3w and the lag of the separation time that side asks for |
| IsoTpLate.ShortNBs | main/isotp.c:403-406 | For any shorter N_Bs, a run in which the grant comes after it is over |
| IsoTpLate.ShortNCr | main/isotp.c:440-446 | For any shorter N_Cr, a run in which the next frame is taken after it is over |
| IsoTpTimeout.EverySendEnds | main/isotp.c:333-438 | Against any peer a multi-frame send is over within K*((wft_max+1)*(n_bs+d)+127+d) ms, with 32-bit clocks that wrap |
| IsoTpTimeout.WaitLimit255NeverEnds | main/isotp.c:349-355 | With wft_max 255 the 8-bit WAIT count wraps and the sender can be kept busy for ever |
| IsoTpTimeout.SendsEndIffWaitLimitBelow255 | main/isotp.c:349-355 | Some bound exists for an accepted send if and only if wft_max is at most 254 |
| IsoTpReception.PollDecides | main/isotp.c:440-446 | A poll that looks at a reception keeps it before N_Cr and ends it from then on, with nothing completed |
| IsoTpReception.LateFramesIgnored | main/isotp.c:280-285 | A consecutive frame that comes after that changes nothing and is not answered |
| IsoTpReception.EveryReceptionEnds | main/isotp.c:403-446 | Whatever the peer does, with polls at most d ms apart and 32-bit clocks that wrap, a reception is over less than N_Cr + d ms after the last data frame it took; each poll since that returned early, having sent a last frame, adds d |
| IsoTpReception.ReceptionsEndIffLimited | main/isotp.c:419-446 | Some bound on the life of a reception exists if and only if the polls that return early after a data frame are limited in number |
| IsoTpFunctional.BroadcastsDoNotInterfere | main/isotp.c:228-233 | Frames on other identifiers, each taking a pass that received nothing else, change neither what the link emits, nor its send half, nor the physical messages it hands up, the application's replies being the same |
| IsoTpFunctional.PassCollects | main/main.c:886-900 | The bench loop leaves no completed message uncollected |
| Uds.AnswersAreWellFormed | main/uds.c:305-394 | Answers are 7F-sid-code or sid+0x40 within the response buffer; annex A.2 codes stay silent on a broadcast; only an ECUReset restarts |
| Uds.PollIsTick | main/uds.c:131-187 | A poll over a link is a tick of the server with the transport's two answers |
| Uds.DrainingReplyUntouched | main/uds.c:157-187 | While a multi-frame reply drains, a poll leaves the send half alone, emits nothing, and counts exactly one dropped response per answer |
| Uds.HandleKeepsDropped | main/uds.c:157-169 | Handling a request by itself never counts a dropped response |
| UdsReplies.SilentIff | main/uds.c:361-394 | No answer goes out exactly when a positive one was asked not to or a broadcast is refused with a code of annex A.2; otherwise it is the negative response or the handler's bytes |
| UdsReplies.RestartIff | main/uds.c:179-187 | The device restarts exactly after a positive hard, key or soft reset whose answer was sent or not wanted |
| UdsReplies.AnswerAccounted | main/uds.c:157-187 | An answer goes out, or a positive one is replaced by busyRepeatRequest, or exactly one response is counted as dropped; a restart follows only in the first case |
| UdsReplies.RequestArrives | main/isotp.c:216-242 | A single frame to a link at rest is the request of the next poll, with the address it came to; on other identifiers nothing is |
| UdsReplies.BroadcastWaitsItsTurn | main/isotp.c:228-233 | No frame on the functional identifier touches a link that is reassembling or holds a message |
| UdsReplies.HandedUpOnce | main/isotp.c:452-479 | A completed message is handed up once, whenever there is room for it; too little room leaves it in place |
| UdsReplies.RequestIsAnswered | main/uds.c:274-394 | A request in a single frame to a link at rest is answered, at the next poll, by the first frame of what the server has to say |
| UdsService.TesterKnows | main/uds.c:193-202 | In every run, what a tester concludes from the answers alone is the session, unlock, challenge, attempt count and open download of the server |
| UdsService.ServedIff | main/uds.c:396-795 | In every run the next request is answered positively if and only if the tester may expect it from the answers so far, and with exactly the bytes it may expect, for all nine services |
| UdsService.RefusalsAreJustified | main/uds.c:396-795 | In every run a negative response code names a reason that really holds, as the tester can tell |
| UdsService.DidsAre | main/uds.c:460-505 | The loop over identifiers yields exactly the records of those that exist, in the order asked for, or nothing when they do not fit |
| UdsService.RecordsReadBack | main/uds.c:460-505 | A tester that knows the lengths reads exactly the records asked for back out of the answer |
| UdsServer.ServerObject.constructor | main/uds.c:241-272 | Default session, locked, no transfer |
| UdsServer.ServerObject.RelockServer | main/uds.c:193-202 | Unlock, challenge and download go together |
| UdsServer.ServerObject.OnEcuReset | main/uds.c:429-458 | Restart request and session wish of ECUReset |
| UdsServer.ServerObject.OnReadDid | main/uds.c:460-505 | The loop over identifiers builds the answer or reports that it does not fit |
| UdsServer.ServerObject.OnSecurity | main/uds.c:507-560 | Delay, then level, then seed or key |
| UdsServer.ServerObject.OnRequestSeed | main/uds.c:534-560 | A fresh non-zero challenge, or zero when already unlocked |
| UdsServer.ServerObject.OnSendKey | main/uds.c:562-602 | Unlock, rejected key with its count, and the start of the delay |
| UdsServer.ServerObject.OnRequestDownload | main/uds.c:655-711 | Gate, length and size checks, and the fresh transfer |
| UdsServer.ServerObject.ParseSize | main/uds.c:690-694 | The size loop computes the big-endian value |
| UdsServer.ServerObject.OnTransferData | main/uds.c:713-765 | New block, retransmission and every refusal |
| UdsServer.ServerObject.OnTransferExit | main/uds.c:767-795 | The transfer is closed |
| UdsServer.ServerObject.Decide | main/uds.c:307-385 | Session commit with relock, suppression and the observable copies |
| UdsServer.ServerObject.Answer | main/uds.c:307-395 | Decision and answer together, with the restart they leave |
| UdsServer.ServerObject.Reply | main/uds.c:179-187 | A refused answer becomes busyRepeatRequest, cancels a restart, and is counted when that fails too |
| UdsServer.ServerObject.PollServer | main/uds.c:274-395 | The whole poll, over the link object |
| UdsRuns.ReachableInv | main/uds.c:193-202 | In every run an open download is unlocked and a running delay means a cleared attempt count |
| UdsRuns.OpenDownload | main/uds.c:738-751 | The expected counter is 1 plus the blocks the tester counts, mod 256; for sizes up to 0xFFFFFBFF the bytes received are the bytes accepted and never exceed the size |
| UdsRuns.RetransmissionChangesNothing | main/uds.c:752-759 | The last accepted block again is acknowledged and changes nothing; before the first byte its counter is refused |
| UdsRuns.KeysAnswerTheLastSeed | main/uds.c:534-602 | A key unlocks if and only if it matches the last seed handed out, and a seed serves for one key only |
| UdsLimits.SizeKeptIff | main/uds.c:745-751 | No run overfills a download of this size if and only if the size is at most 0xFFFFFBFF |
| UdsLimits.Overfill | main/uds.c:745-751 | For any larger size, a run that ends with 1024 bytes too many |
| UdsLimits.QuietRun | main/uds.c:291-303 | Request-free polls age the session timer by their sum until it expires |
| UdsLimits.IdlingLocksIff | main/uds.c:291-303 | 5000 ms of request-free polls of at most max ms always lock the server if and only if max is at most 2^32-5000 |
| UdsLimits.RejectedKeysBounded | main/uds.c:507-602 | Rejected keys number at most 3*(floor(T/10000)+1) + 2*unlocks + 3*restarts, whatever is interleaved |
| UdsLimits.DelayHoldsIff | main/uds.c:429-458 | Without an unlock the bound 3*(floor(T/10000)+1) holds for all runs if and only if no restart is allowed |
| UdsDelay.DelayExact | main/uds.c:280-283 | After the poll that starts the delay, SecurityAccess is answered 7F 27 37 if and only if less than 10000 ms have been fed since and no restart came between |
| UdsDelay.UnlocksAfterDelay | main/uds.c:534-602 | Once it is over a locked server hands out a non-zero seed, and the matching key unlocks |
| UdsDelay.SeedsComeBack | main/uds.c:507-560 | Ten seconds of polls after the third wrong key, whatever is asked meanwhile, a seed request is answered with a seed again |
| PcanTime.FaithfulIff | main/pcan_time.c:53-80 | The host's time lags by at most 44 us + t/3000 and never leads, if and only if the ns product fits 64 bits |
| PcanTime.WireDifference | main/pcan_time.c:65-68 | Differences of the 16-bit value are the true tick differences mod 2^16 |
| PcanTime.GapFitsByteIff | main/pcan_time.c:53-68 | Readings gap us apart are always at most 255 ticks apart if and only if gap is at most 10880 |
| PcanTime.Clock.ElapsedAdvances | main/pcan_time.c:35-44 | Two readings are as far apart as the timer once it has passed the epoch, never further, and never run backwards |
| PcanTime.Clock.StampsStayClose | main/pcan_time.c:53-68 | Stamps taken at most 10880 us apart by the timer are at most 255 ticks apart on the wire |
| PcanMsg.LimitNeverTruncates | main/pcan_msg.c:229-232 | A transfer of at most 64 bytes yields at most 20 frames, so the caller's limit of 32 is never felt |
| PcanMsg.EnoughRoom | main/pcan_msg.c:229-319 | Once there is room for a frame per three bytes left, more room changes nothing |
| PcanHost.FrameRead | main/pcan_msg.c:41-129 | The host reads back id, flags, saturated length, payload and skips the trailer |
| PcanHost.StatusRead | main/pcan_msg.c:131-180 | The host reads back function, number and stamp of a status record with the payload length it assumes, and skips the payload |
| PcanHost.HostReadsBatch | main/pcan_proto.h:211-239 | Every batch of frames and of status records with the payload length the host assumes is walked to exactly its last byte and yields its records in order |
| PcanHost.EachWalkedIff | main/pcan_proto.h:266-281 | While any batch the encoder accepts is being filled, the host can walk it to its last byte after each record, if and only if ANALOG records carry two bytes, BUSLOAD records one and TS records at least two |
| PcanHost.HearExactIff | main/pcan_time.c:82-96 | A low byte continues an exact clock exactly when the step is at most 255 ticks |
| PcanHost.TicksExactIff | main/pcan_time.c:82-96 | Without a calibration record all ticks of a batch are exact if and only if neighbours are at most 255 ticks apart mod 2^16 |
| PcanHost.SteadyReadingsAreExact | main/pcan_time.c:53-96 | Clock readings at most 10880 us apart reach the host exactly |
| PcanHost.CalibrationDisturbsTicks | main/pcan_msg.c:182-195 | A calibration record inside a batch makes a later, close stamp come out 256 ticks off |
| PcanHost.TxRecRead | main/pcan_msg.c:237-318 | The decoder reads one host record: raw lengths 9 to 15, trailers on remote frames, internal records skipped |
| PcanHost.DecodesWhatHostEncodes | main/pcan_msg.c:203-322 | The decoder undoes the host's encoder on every full transfer whose records end before the tail byte |
| PcanHost.DecodesShortTransfer | main/pcan_msg.c:221-224 | A short transfer has no tail byte and yields writer 0 |
| PcanBatch.Batch.Reset | main/pcan_msg.c:29-39 | An empty batch is its two header bytes |
| PcanBatch.Batch.TsAppend | main/pcan_time.c:82-96 | Two bytes for the first stamped record, one after that |
| PcanBatch.Batch.AddFrame | main/pcan_msg.c:41-129 | A frame is added if and only if its record fits 64 bytes; a refusal changes nothing |
| PcanBatch.Batch.AddStatus | main/pcan_msg.c:131-180 | A status record is added if and only if its length fits the nibble and the record the buffer |
| PcanBatch.Batch.AddCalib | main/pcan_msg.c:182-195 | A calibration record is five bytes and takes no stamp slot |
| PcanBatch.Batch.AddError | main/pcan_msg.c:197-201 | An error record with its stamp |
| PcanBatch.EveryRecordFits | main/pcan_msg.c:66-73 | Every record fits an empty batch |
| PcanBatch.DecodeInto | main/pcan_msg.c:203-322 | The loop over arbitrary bytes stays inside them and fills the array with the decoded frames, or returns -1 |
| UsbTxTask.TxTask.Flush | main/main.c:261-289 | A non-empty batch is released as it stands and the batch is empty again |
| UsbTxTask.TxTask.ShipCalib | main/main.c:344-353 | A calibration record is the only record of its batch |
| UsbTxTask.TxTask.Pass | main/main.c:293-370 | One pass takes at most 97 frames and adds exactly those frames, the due calibration and the posted errors to the stream, in order; an error record that needed a flush carries the later clock reading |
| UsbTxTask.HostSeesStream | main/main.c:261-370 | The records the host decodes from all released batches, concatenated, are the stream |
| UsbTxTask.TxTask.RunPasses | main/main.c:301-369 | The loop for any number of passes: the host decodes exactly the frames popped, the calibrations due and the errors posted, in order |
| UsbTxTask.MasksArrive | main/main.c:355-368 | In any number of passes the host decodes every error mask that was posted, once and in order |
| UsbTxTask.ShippedTicks | main/main.c:334-368 | A released batch is a lone calibration, or its ticks are exact if and only if neighbours are close |
| RingSteps.WriteIsSafe | main/ringbuf.c:170-174 | The slot push writes is none of those reserved or filled and not yet copied out |
| RingSteps.StepKeeps | main/ringbuf.c:143-219 | Every single step of push, pop and the statistics reader keeps the ring invariant |
| RingSteps.RingTheorem | main/ringbuf.c:143-219 | items + spaces + tokens held is the capacity; frames popped are the first frames accepted |
| RingSteps.RefinesFifo | main/ringbuf.c:143-219 | Each step is one step of a bounded queue or none, under every interleaving and with lock timeouts |
| RingSteps.RefusedIffFull | main/ringbuf.c:153-158 | Push finds no space exactly when every slot holds a frame that no pop has returned |
| RingSteps.PopReturnsReserved | main/ringbuf.c:202-218 | A pop returns the frame its item token stood for |
| RingSteps.OneLockHolder | main/ringbuf.c:162-176 | The lock is never in two hands |
| RingProgress.AllReturn | main/ringbuf.c:143-219 | From every state any interleaving can reach, at most eleven steps of the tasks under way let every push and pop return, the push accepted unless it had given up, the pop with its frame; the lock is free then |
| RingProgress.PopFindsIffQueued | main/ringbuf.c:200-204 | In every run pop finds a frame exactly when one is queued |
| RingProgress.GivesUpIff | main/ringbuf.c:160-166 | In every run a push gives up exactly when its patience ends while another task holds the lock |
| RingBuf.RingObject.constructor | main/ringbuf.c:50-121 | An empty ring with every space free |
| RingBuf.RingObject.BeginPush | main/ringbuf.c:151-158 | Reserving a space, or refusal exactly when full |
| RingBuf.RingObject.AdvancePush | main/ringbuf.c:160-181 | Lock, timeout, copy, index and gives of push, in place |
| RingBuf.RingObject.BeginPop | main/ringbuf.c:200-204 | Reserving an item, or refusal exactly when the queue is empty |
| RingBuf.RingObject.AdvancePop | main/ringbuf.c:206-219 | Lock, copy, index and gives of pop, in place |
| RingBuf.RingObject.PushAlone | main/ringbuf.c:143-181 | Push as a whole appends to the queue |
| RingBuf.RingObject.PopAlone | main/ringbuf.c:193-219 | Pop as a whole takes the front of the queue |
| UsbIn.GlueIn.Init | main/usb_glue.c:487-500 | Start of the driver |
| UsbIn.GlueIn.Deinit | main/usb_glue.c:504-523 | A retained batch is dropped for good |
| UsbIn.GlueIn.Reset | main/usb_glue.c:529-547 | A retained batch is kept for the next session |
| UsbIn.GlueIn.Open | main/usb_glue.c:577-590 | A batch kept for retry is bound to the new session |
| UsbIn.GlueIn.Done | main/usb_glue.c:671-687 | Only a successful completion completes the batch |
| UsbIn.GlueIn.RunDeferred | main/usb_glue.c:361-396 | A deferred call touches the endpoint only for a batch queued in its own session |
| UsbIn.GlueIn.SendMsgBatch | main/usb_glue.c:404-456 | The retained-batch state machine as the caller sees it |
| UsbIn.StepKeeps | main/usb_glue.c:361-456 | Resets, opens, failed completions, stale and lost deferred calls keep the caller's exact bytes in the buffer |
| UsbIn.RetainedUntilDelivered | main/usb_glue.c:398-456 | The host sees b1 k1 times, b2 k2 times and so on, each k at least 1 unless dropped by deinit; a batch queued or submitted carries the current session and the caller's bytes |
| UsbIn.ReleasedOnlyWhenDone | main/usb_glue.c:415-423 | The length is returned exactly in the states complete and dropped, and complete means the host read this batch last |
| UsbIn.StaleDeferredIgnored | main/usb_glue.c:366-375 | A deferred call of an earlier session does nothing |
| UsbInProgress.ScheduledIff | main/usb_glue.c:404-456 | In every run a submission is scheduled, for the current session, exactly when the state becomes queued, by an offer to an open interface with nothing under way or a batch to retry |
| UsbInProgress.NextIsDelivered | main/usb_glue.c:361-456 | From every state a run can reach, closed or in retry after a reset included, at most six events that the stack has scheduled or may produce release the current batch, read by the host at least once unless a deinit had dropped it |
| UsbInProgress.GivenUpIff | main/usb_glue.c:504-547 | In every run a batch under way is given up exactly at a deinit; resets and failed transfers keep it |
| UsbInProgress.NothingIsDropped | main/usb_glue.c:504-547 | In a run without deinit every batch the caller was released from was read by the host |
| UsbOut.GlueOut.HandleMsg | main/usb_glue.c:203-226 | The decoded frames become the pending ones, in place |
| UsbOut.GlueOut.RunDrain | main/usb_glue.c:228-289 | The drain loop moves frames into the ring in order until it is full, then re-arms |
| UsbOut.GlueOut.Close | main/usb_glue.c:529-547 | Pending frames are counted as lost and the session ends |
| UsbOut.GlueOut.Open | main/usb_glue.c:577-610 | The endpoint is armed or flagged for re-arming |
| UsbOut.GlueOut.Done | main/usb_glue.c:655-665 | Every ended transfer leaves the endpoint unarmed and flagged |
| UsbOut.Backpressure | main/usb_glue.c:203-289 | While open exactly one of armed and needs-rearm holds, armed means nothing pending, decoded = pushed + pending + dropped in order, and no transfer overwrites pending frames |
| UsbOut.RingGets | main/usb_glue.c:247-267 | Only a drain feeds the ring, with exactly the frames it marks as pushed |
| UsbOutProgress.DrainsDeliver | main/usb_glue.c:228-347 | Whatever drains follow one another in a session, they move as many frames as they found room for, in order, and the endpoint is armed exactly when one of them found room for the last frame and was accepted |
| UsbOutProgress.NextTransferArrives | main/usb_glue.c:203-347 | From every state a run can reach, at most three events put all that is pending and then every frame of the next transfer into the ring, lose nothing and arm the endpoint again |
| UsbOutProgress.LostIff | main/usb_glue.c:504-547 | In every run pending frames are lost exactly when a session ends, and each is counted |
| UsbSend.Sender.FlushPending | main/main.c:261-289 | The retry loop: the batch is offered until the driver is done with exactly this batch, which the host then has read or a deinit dropped; until then it stays as it is |
| UsbPath.ToHost | main/main.c:242-289 | After any resets, failures and stale calls the host has decoded the records of the first batches packed, in order, each once per reading |
| UsbPath.ToHostExactly | main/main.c:242-289 | Without repeats and drops it has decoded exactly the records packed into them |
| UsbPath.FromHost | main/usb_glue.c:203-226 | A transfer the host encoded leaves exactly its frames pending |
| CanPath.StepKeeps | main/usb_glue.c:228-289 | Drain, ring and transmit path in one machine of single steps keep what joins them |
| CanPath.HostToBus | main/usb_glue.c:203-289 | In every run each decoded frame is pushed, lost at a reset or pending, in order; the frames popped for the bus are the first of those pushed; and the bus carries them in that order, each confirmed one at least once |
| CanPathProgress.NextTransferReachesBus | main/usb_glue.c:203-347 | From every state the joined machine can reach, it can go on so that the next transfer is taken, every frame that entered the ring is let go, all confirmed except at most the first, nothing is lost, and the endpoint is armed again |
| HostPath.StepKeeps | main/main.c:222-370 | Receive ring, packing, flushes and driver in one machine of single steps keep what joins them |
| HostPath.BusToHost | main/main.c:222-370 | In every run the frames popped are the first accepted into the receive ring and are, in order, in the released batches, in the open one or in hand; the host has decoded those of the released batches and of the open one, in order, as often as it read each batch, which for a released one is at least once unless a deinit dropped it |
| HostPath.BusToHostExactly | main/main.c:222-370 | Without repeats and drops the host has decoded exactly the first frames accepted into the receive ring |
| HostPathProgress.NextPassReachesHost | main/main.c:222-370 | From every state the joined machine can reach, it can go on so that the next frame, a calibration and an error report are released in this order after all that was accepted before, each batch read by the host unless a deinit had dropped it before |
| BridgeTasks.BridgeObject.TwaiRxTask | main/main.c:211-244 | The loop of twai_rx_task: interleaved in any way with the others it is exactly the run of the machine that takes its steps |
| BridgeTasks.BridgeObject.ParkTx | main/main.c:211-220 | quiesce_park: the id seen is echoed on every pass until an even one is seen |
| BridgeTasks.BridgeObject.CanTxTask | main/main.c:400-482 | The loop of can_tx_task over its locals: interleaved in any way with the others it is exactly the run of the machine that takes its steps, and keeps all of its invariants |
| BridgeTasks.BridgeObject.WorkTx | main/main.c:415-474 | One pass outside the park: a frame is popped only if none is owned, then submitted or its verdict awaited |
| BridgeTasks.BridgeObject.Offer | main/main.c:423-458 | Drain the stale verdicts, then submit, defer or refuse |
| BridgeTasks.BridgeObject.TakeVerdict | main/main.c:463-474 | OK lets the frame go, anything else has it submitted again |
| BridgeTasks.BridgeObject.ControlTask | main/main.c:644-739 | The loop of ctrl_task: interleaved in any way with the others it is exactly the run of the machine that takes its steps |
| BridgeTasks.BridgeObject.AwaitAcks | main/main.c:490-511 | The bounded wait ends granted or abandoned |
| BridgeTasks.BridgeObject.Reconfigure | main/main.c:681-710 | Alerts delivered, teardown, reinstall, and the abort posted before release |
| BridgeTasks.BridgeObject.ServiceAlerts | main/main.c:611-640 | Alerts are read, recovery started, and the verdict posted before the bus-off abort |
| BridgeTasks.BridgeObject.ReadAndClear | main/twai_hal.c:371-393 | Reading clears the alert bits, and FAIL wins over OK |
| BridgeSafety.HandshakeStep | main/main.c:211-220 | Acknowledgements of earlier cycles never pass for the current one |
| BridgeSafety.QuiesceIsSafe | main/main.c:490-517 | Between a true ctrl_quiesce_begin and ctrl_quiesce_end both TWAI tasks are inside quiesce_park, over any number of cycles and timeouts |
| BridgeSafety.StepKeeps | main/main.c:400-482 | Every step of the three tasks and of the driver keeps handshake, ownership and ledger |
| BridgeSafety.OneCopyAtMost | main/main.c:372-398 | The driver never holds two copies, and a frame is submitted only when it holds none |
| BridgeSafety.VerdictsAreSound | main/main.c:460-474 | A verdict taken concerns the frame in flight: the driver holds no copy, and OK means it went out since it was last submitted |
| BridgeSafety.AtLeastOnceInOrder | main/main.c:400-482 | The bus carries the popped frames in pop order; each confirmed frame once, plus once for every success a teardown erased |
| BridgeSafety.ExactlyOnceIff | main/main.c:687-708 | Between frames, the bus has carried exactly the confirmed frames if and only if no teardown erased a success |
| BridgeSafety.NoVerdictIsMissed | main/main.c:600-640 | A frame in flight that left the driver always has a verdict on its way, though the queue drops when full |
| BridgeProgress.AlertsAreServed | main/twai_hal.c:419-440 | Outside a reconfigure, a bus-off has led into recovery with no copy left in the driver, and a finished recovery to a running driver, within five steps of the control task, however the others interleave |
| BridgeProgress.RefusedRestartIsFinal | main/twai_hal.c:431-440 | A driver that refused the restart stays stopped as long as no reconfigure is asked for |
| BridgeProgress.HeldAgain | main/main.c:600-640 | From every bus-off with a copy in the driver, alert services, the recovery and steps of can_tx_task alone lead to a running driver that holds the same frame again |
| BridgeProgress.ConfirmedInPlace | main/main.c:400-482 | From every state with a usable driver the frame owned can be brought to the bus and confirmed without a reconfigure |
| BridgeProgress.SettingsCanBeApplied | main/main.c:681-710 | From every state a run can reach, any setting of bus and listen-only mode can be brought into force |
| BridgeProgress.NeverStuck | main/main.c:400-739 | From every state a run can reach, the frame owned can be let go, refused at most by a listening driver, and the next one popped, sent and confirmed |
| BridgeProgress.FateIsDecided | main/main.c:423-474 | In every run a frame is let go exactly when OK is taken for it or a listening driver refuses it, is handed over exactly when a running driver that does not listen takes it, and otherwise stays |
| BridgeDuplicate.FrameSentTwice | main/main.c:687-708 | A run in which one popped frame is sent twice |

## Left out

- UsbTxTask.TxTask.Flush: releases a batch in one step; the loop that waits for the endpoint is `UsbSend.Sender.FlushPending`, whose number of offers is an argument because the wait has no bound while the host is absent; in `HostPath` every offer is a step.
- UdsServer.ServerObject.Serve: the response is a value handed back, not bytes written step by step into the response buffer; only its capacity is modelled.
- UsbIn.RetainedUntilDelivered: safety only; `UsbInProgress.NextIsDelivered` is about runs in which the scheduled call is made, for a deferred call lost in the queued state is not scheduled again until a reset.
- RingSteps.RingTheorem: the counter of dropped frames is not part of the ring's state; by the code's own comment it is best effort.
- BridgeSafety.AtLeastOnceInOrder: says nothing about how long a frame waits; without another node on the bus it may wait for ever, so `BridgeProgress.NeverStuck` is about how a run can go on.
- IsoTpTimeout.EverySendEnds: for single-frame sends there is nothing to bound, and `n_as`, `n_ar` are stored but not enforced by the code, so the model has no such timers.
- UsbOut.GlueOut.RunDrain: how many frames the transmit ring takes is an argument, since its consumer works at the same time; `CanPath` has the drain push through the ring itself, step by step.
- IsoTpFunctional.BroadcastsDoNotInterfere: is about the link; a server that answers a broadcast puts its answer on the bus.
- The contents of the identifier table: the table is a parameter.
- Session masks and the ResponsePending loop of the dispatcher: the built-in table gates nothing by session and no built-in handler asks for more time.
- NULL checks, missing HAL callbacks and statistics counters other than reset drops and dropped responses.
- Cycle ids and USB generations are natural numbers; their 32-bit wrap is not modelled.
- EP1 commands and replies, descriptors, TinyUSB installation, GPIO, LED, NVS, mode selection, bitrate tables and logging: plumbing without a hard invariant.
- What twai_rx_task receives, and the posting of error masks: in `HostPath` the frames pushed and the masks are those of the environment, and the overrun counter of a full ring is left out.
- Ring memory allocation and its fallback.
