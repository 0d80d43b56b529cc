# SIP bridge: verified model

A Dafny model of the protocol core of the SIP-to-WebRTC bridge: call transfer, the two
kinds of SIP dialog, the timed media loops, the RTP arithmetic and re-framing, and the
recovery of a room after its connection was lost. `dafny verify dfyconfig.toml` checks
all of it.

How the parts are modelled:

- **Goroutines that race** (pending transfers, a REFER's result, the media timeout loop,
  the DTLS demultiplexer, room recovery) are state machines. Every event is one atomic
  action of one goroutine, a schedule is any sequence of events, an event that is not
  enabled leaves the state alone, and the theorems hold for every schedule.
- **Objects guarded by a mutex** (the inbound and outbound dialogs, requests rewritten
  header by header, the silence filler, stream statistics, the Opus encoder, the DTMF
  port, SDP sections) are classes. Their methods are proved against what they put on the
  wire, and the `Drive` methods run arbitrary sequences of operations.
- **Parsers** are functions, or methods with the source's loop proved against a function.
- Clocks, sockets, the transaction layer, codecs and the room SDK are an environment that
  appears as parameters or events.

| file | component |
|---|---|
| Transfer.dfy, Refer.dfy | pending transfers and their waiters; the outcome of one REFER |
| Notify.dfy, SubscriptionState.dfy, Text.dfy | reading a NOTIFY |
| Numbering.dfy | CSeq numbers |
| InboundTrace.dfy, Inbound.dfy | message grammar of an inbound call, and the dialog that keeps to it |
| OutboundTx.dfy, Outbound.dfy | INVITE transactions, the outbound dialog, dialing |
| Routes.dfy | Record-Route, Route and cached destination |
| MediaTimeout.dfy, DrainPort.dfy | timed loops |
| SilenceFiller.dfy, RtpStats.dfy, Dtmf.dfy, OpusEncoder.dfy | RTP arithmetic, de-duplication, framing |
| DtlsMux.dfy, SdpAnswer.dfy | demultiplexing, in-place rewriting of the answer |
| RoomRecovery.dfy | which tracks are subscribed |

## What the proofs found

- A REFER's result reported before the REFER is accepted can be lost, and a later one wins,
  exactly if it came at least the handlers' five seconds earlier
  (`Refer.FirstWinsExactlyWithinTheTimeout`, `Refer.EarlyResultCanBeLost`).
- A session rebuilt and then reported lost again before its recovery is announced is taken
  for a resume, and only then (`RoomRecovery.MisjudgedExactlyOnOverlap`). Its audio stays
  unsubscribed until a republication, an answer or a reconnect
  (`RoomRecovery.OverlappingLossesLoseAudio`, `RoomRecovery.StrandedForGood`).
- A packet, a disarming or a re-arming that lands while a timeout pass is between reading
  the shared fields and deciding does not stop the callback (`MediaTimeout.PassIgnores`).
  Nothing else makes it fire too early (`MediaTimeout.PrematureExactlyIfSpoiled`).
- An answered call is orphaned exactly if it had been stopped before dialing, got a usable
  200 and then failed without a BYE from the remote. During client shutdown, a 200 without
  a To tag is answered by two BYEs, exactly if the call was not stopped before and the remote
  does not hang up in time (`Outbound.OutboundCall.ConnectSIP`).
- A 2xx other than 200 is treated as a rejection: neither acknowledged nor hung up
  (`Outbound.SuccessHandledExactlyFor200`).
- Closing an Opus encoder again hands over its tail again (`OpusEncoder.Encoder.Close`).
- Two neighbouring key presses that share timestamp and code are reported as one
  (`Dtmf.NoneMissedExactlyWhen`).
- Rewriting an answer twice repeats its ICE attributes (`SdpAnswer.TwiceIsOnceExactlyWithoutIce`).
- The comment above `ParseSubscriptionState` (pkg/sip/protocol.go:614-618) says that an
  unrecognised state yields the zero value. The code keeps it, and so does the model
  (`SubscriptionState.ReadIsClean`). An empty state is printed as a placeholder that reads
  back as a state (`SubscriptionState.RoundTripExactlyWithState`).

## Model

| member | source | states |
|---|---|---|
| `Transfer.RunKeepsInv` | pkg/sip/service.go:379-440 | in every schedule each pending transfer agrees with its worker, each waiter with its transfer, and the map holds exactly the unfinished transfers |
| `Transfer.EveryWaiterReturnsTheWorkersOutcome` | pkg/sip/service.go:405-438 | every RPC that returns a transfer's outcome returns its worker's, never the zero value of the closed channel, for the call and target it asked for |
| `Transfer.OneLiveWorkerPerCall` | pkg/sip/service.go:470-487 | two unfinished workers never serve the same call |
| `Transfer.ChannelNeverFull` | pkg/sip/service.go:405-423 | a worker never finds its one-slot channel full |
| `Transfer.NoWaiterStranded` | pkg/sip/service.go:425-438 | once the channel is closed, a waiter's next two steps return the worker's outcome, with any steps of others before and between them |
| `Transfer.WaiterGetsTheResult` | pkg/sip/service.go:405-438 | whoever waits for a worker at work returns the result it then comes to |
| `Transfer.WorkerFinishes` | pkg/sip/service.go:405-423 | a worker with a result stores it, closes the channel and finishes |
| `Transfer.WaiterCanGiveUp` | pkg/sip/service.go:425-438 | a waiting RPC can give up, which changes nothing for the others |
| `Transfer.GivesUpOnlyItself` | pkg/sip/service.go:425-438 | an RPC gives up only by its own context |
| `Transfer.OutcomeIsOffered` | pkg/sip/service.go:405-423 | a worker's outcome is one it offered |
| `Transfer.EveryRequestIsAnRpc` | pkg/sip/service.go:379-404 | one RPC for every request, in order, for the call and target asked for |
| `Transfer.RepeatedRequestJoins` | pkg/sip/service.go:387-404 | a request for a call whose worker is at work waits for it, and is refused exactly for another target |
| `Transfer.FirstRequestStarts` | pkg/sip/service.go:470-487 | a request for a call without a worker at work starts one and waits for it |
| `Transfer.RefusedOnlyForAnotherTarget` | pkg/sip/service.go:387-392 | every refused RPC has a transfer of its call to another target |
| `Transfer.RequestKeepsInv` | pkg/sip/service.go:470-487 | creating, joining or refusing a transfer keeps that agreement |
| `Transfer.ReceiveKeepsInv` | pkg/sip/service.go:425-438 | receiving the value or the close keeps it |
| `Transfer.ForgetKeepsInv` | pkg/sip/service.go:405-423 | deleting the map entry keeps it: the entry deleted is the worker's own |
| `Transfer.TransferResponse` | pkg/sip/service.go:442-468 | success exactly without an error; a SIP status exactly for a rejection, and then the code of the final NOTIFY; each other reason exactly for its error |
| `Transfer.StatusIsReported` | pkg/sip/service.go:442-468 | a final NOTIFY is reported as a success for 200 and otherwise as a rejection with its own code |
| `Transfer.Reply` | pkg/sip/service.go:365-377 | the RPC fails exactly if the transfer did, unless the call ended first |
| `Refer.Classify` | pkg/sip/protocol.go:431-476 | a NOTIFY decides exactly if it is addressed to this REFER and carries a final status or a terminated subscription; success exactly for 200, and otherwise its own status |
| `Refer.Run` | pkg/sip/protocol.go:431-509 | every schedule keeps parked handlers in order, waits with no result pending, and finishes only with a verdict it is entitled to |
| `Refer.DecisionsAreTheDecidingNotifies` | pkg/sip/protocol.go:431-476 | the reported decisions are the deciding NOTIFYs, in order of arrival |
| `Refer.FirstDecidingNotifyWins` | pkg/sip/protocol.go:477-509 | the verdict taken from a NOTIFY is that of the first deciding one not given up before the REFER was accepted |
| `Refer.ResultBeatsCallEnd` | pkg/sip/protocol.go:492-509 | the wait ends with a NOTIFY's verdict, its context or "call ended"; the last only after the whole grace, with no deciding NOTIFY parked or arriving meanwhile |
| `Refer.FieldsFollowTheSchedule` | pkg/sip/protocol.go:492-509 | clock, end of the call and context are those of the schedule |
| `Refer.BlocksOnlyOnNothing` | pkg/sip/protocol.go:492-509 | the wait blocks only while neither a result, the end of the call nor the context is there |
| `Refer.GraceEnds` | pkg/sip/protocol.go:499-507 | a wait in its grace ends with "call ended" when the second is over |
| `Refer.AcceptanceStartsTheWait` | pkg/sip/protocol.go:492-498 | an accepted REFER is waited for, and blocks exactly if nothing is ready |
| `Refer.EarlyResultCanBeLost` | pkg/sip/protocol.go:477-480 | for every gap from the handlers' timeout on and any two deciding NOTIFYs, a schedule in which the first is lost and the second decides |
| `Refer.FirstWinsExactlyWithinTheTimeout` | pkg/sip/protocol.go:477-509 | the first deciding NOTIFY wins in every schedule if and only if it came less than the handlers' timeout before acceptance |
| `Notify.ParseNotifyBody` | pkg/sip/protocol.go:353-383 | an accepted status line carries a code from 100 to 699 (its content: `Notify.BodyDecided`) |
| `Notify.BodyDecided` | pkg/sip/protocol.go:353-383 | every body: refused without a blank, otherwise its first two words and the rest decide code, reason phrase or error |
| `Notify.ParseEvent` | pkg/sip/protocol.go:404-414 | an accepted event yields a 32-bit CSeq |
| `Notify.HandleNotify` | pkg/sip/protocol.go:395-429 | an accepted NOTIFY is classifiable, and has status 0 exactly if its body is blank |
| `Notify.BodyReads` | pkg/sip/protocol.go:353-383 | a status line in any capitalisation of the version, followed by a line break and anything, reads back as its code and reason phrase |
| `Notify.EventReads` | pkg/sip/protocol.go:404-414 | a printed event reads back as its id, or as 0 without one |
| `Notify.NotifyRoundTrip` | pkg/sip/protocol.go:395-429 | event id, status, reason phrase and subscription of a well-formed NOTIFY all come back |
| `Notify.TextDecidesTransfer` | pkg/sip/protocol.go:395-476 | from text to outcome: it ends the transfer exactly on a final status or a terminated subscription, and well exactly on 200; the RPC reports the code in the text |
| `Notify.BlankBodyReads` | pkg/sip/protocol.go:410-428 | without a body the status is 0, and without a Subscription-State the subscription goes on |
| `Notify.NoSubscriptionReads` | pkg/sip/protocol.go:410-428 | a status without a Subscription-State is read as such |
| `Notify.BareTerminationFails` | pkg/sip/protocol.go:415-461 | a NOTIFY that only ends the subscription ends the transfer |
| `Notify.RefusedNotifies` | pkg/sip/protocol.go:395-428 | no event, another event and an unreadable body are refused, each with its error |
| `SubscriptionState.ParseSubscriptionState` | pkg/sip/protocol.go:619-638 | the loop computes the field-by-field reading, and leaves state and reason trimmed, lower-case and free of separators |
| `SubscriptionState.ReadIsClean` | pkg/sip/protocol.go:619-638 | the state is the first field, trimmed and lower-cased, whatever it says |
| `SubscriptionState.ReadPrint` | pkg/sip/protocol.go:598-638 | reading a printed subscription restores state and reason |
| `SubscriptionState.RoundTripExactlyWithState` | pkg/sip/protocol.go:592-638 | for every header, printing and reading back keeps state and reason if and only if the state is not empty; termination is always kept |
| `SubscriptionState.LastReasonWins` | pkg/sip/protocol.go:622-636 | the reason is that of the last reason field |
| `SubscriptionState.ExpiresLine` | pkg/sip/protocol.go:633-634 | the expiry is read from its field |
| `SubscriptionState.LastExpiresWins` | pkg/sip/protocol.go:622-636 | the expiry is that of the last such field |
| `SubscriptionState.AtoiReads` | pkg/sip/protocol.go:634 | numbers read as themselves, signed, and cut off at 64 bits |
| `InboundTrace.LegalMeansOneFinalResponse` | pkg/sip/inbound.go:1838-1866 | a trace of the grammar has one final response, repeated only if it is our 200, and no provisional one after it |
| `InboundTrace.LegalMeansNothingAfterTheEnd` | pkg/sip/inbound.go:1827-1836 | nothing is sent after our BYE, the remote's, or a rejection |
| `InboundTrace.LegalRequestIsInDialog` | pkg/sip/inbound.go:2146-2226 | a REFER or BYE follows our 200 and neither BYE |
| `InboundTrace.LegalMeansRequestsInDialog` | pkg/sip/inbound.go:2146-2226 | the same for every request of a trace |
| `InboundTrace.LegalTraceSummary` | pkg/sip/inbound.go:2140-2144 | requests of a trace are numbered on from the INVITE's CSeq + 1 without a hole, and the 200s are within the limit |
| `InboundTrace.CSeqsIncrease` | pkg/sip/inbound.go:2140-2144 | without a 32-bit wrap the numbers are contiguous |
| `Inbound.SipInbound.constructor` | pkg/sip/inbound.go:1754-1773 | a fresh dialog has sent nothing and numbers on from the INVITE |
| `Inbound.SipInbound.StopRinging` | pkg/sip/inbound.go:1967-1972 | the current stop channel is closed once |
| `Inbound.SipInbound.Drop` | pkg/sip/inbound.go:1827-1836 | the dialog is over and nothing is sent; the INVITE transaction is terminated exactly if it was still ours |
| `Inbound.SipInbound.Respond` | pkg/sip/inbound.go:1838-1858 | responds exactly while the transaction is ours |
| `Inbound.SipInbound.Processing` | pkg/sip/inbound.go:1923-1927 | one 100 while pending |
| `Inbound.SipInbound.StartRinging` | pkg/sip/inbound.go:1938-1946 | one 180, and a fresh stop channel |
| `Inbound.SipInbound.RingTick` | pkg/sip/inbound.go:1958-1962 | a tick after acceptance or rejection sends nothing |
| `Inbound.SipInbound.RespondAndDrop` | pkg/sip/inbound.go:1860-1866 | one response at most, and the dialog is over |
| `Inbound.SipInbound.SendOks` | pkg/sip/inbound.go:2036-2077 | the number of 200s, when the last one leaves, and when the ACK counts as missing |
| `Inbound.SipInbound.Answer` | pkg/sip/inbound.go:2036-2081 | the copies, and a dialog established with or without an ACK |
| `Inbound.SipInbound.Accept` | pkg/sip/inbound.go:2015-2081 | refused untouched once the transaction is gone; otherwise established, with an error exactly for a missing ACK that was waited for |
| `Inbound.CopiesLeaveInTime` | pkg/sip/inbound.go:2036-2077 | all copies leave within 750 ms, or 6.75 s when waiting for the ACK |
| `Inbound.CopyTimes` | pkg/sip/inbound.go:2036-2077 | how many copies there are, and when each leaves |
| `Inbound.SipInbound.AcceptBye` | pkg/sip/inbound.go:2087-2092 | the remote's BYE is answered once and ends the dialog |
| `Inbound.SipInbound.TakeCSeq` | pkg/sip/inbound.go:2140-2144 | hands out the next number, modulo 2^32 |
| `Inbound.SipInbound.SendBye` | pkg/sip/inbound.go:2146-2169 | one BYE exactly if established, and the dialog is over |
| `Inbound.SipInbound.SendStatus` | pkg/sip/inbound.go:2171-2191 | one final status exactly if pending, 503 for none |
| `Inbound.SipInbound.CloseWithStatus` | pkg/sip/inbound.go:2277-2289 | a status while pending, a BYE once established, nothing after |
| `Inbound.SipInbound.NewReferReq` | pkg/sip/inbound.go:2201-2226 | a numbered REFER exactly if established |
| `Inbound.Drive` | pkg/sip/inbound.go:1827-2289 | every sequence of operations on a fresh dialog keeps to the grammar: one final response, requests only after our 200 and nothing after the end; it closes no stop channel twice and terminates the transaction at most once |
| `OutboundTx.SipResponse` | pkg/sip/outbound.go:541-570 | the first event that is not a provisional response decides, and a CANCEL is sent exactly on expiry or shutdown |
| `OutboundTx.WatchCancelledInvite` | pkg/sip/outbound.go:577-610 | a late 2xx is acknowledged and hung up, and the transaction ends in any case |
| `OutboundTx.LateAnswerIsHungUp` | pkg/sip/outbound.go:577-610 | after codes 100 to 199 the settling event decides: an ACK and a BYE exactly for a response from 200 to 299 |
| `OutboundTx.AttemptActs` | pkg/sip/outbound.go:541-610 | CANCEL, watcher, termination and code of an attempt, by the events that settle it |
| `OutboundTx.AttemptSettles` | pkg/sip/outbound.go:1176-1211 | an attempt terminates its own transaction once, touches no other, and its watcher ends every 2xx it acknowledges |
| `OutboundTx.RunTransaction` | pkg/sip/outbound.go:1176-1211 | what is sent and returned for one attempt, settled as above |
| `Outbound.SipOutbound.constructor` | pkg/sip/outbound.go:848-866 | numbering starts at 1 |
| `Outbound.SipOutbound.Drop` | pkg/sip/outbound.go:1276-1280 | no dialog remains |
| `Outbound.SipOutbound.AcceptBye` | pkg/sip/outbound.go:1131-1136 | the remote's BYE is answered once and ends the dialog |
| `Outbound.SipOutbound.TakeCSeq` | pkg/sip/outbound.go:1222-1226 | hands out the next number and keeps the series without a hole |
| `Outbound.SipOutbound.SendBye` | pkg/sip/outbound.go:1228-1253 | one BYE exactly if there is a dialog; during shutdown the dialog is kept |
| `Outbound.SipOutbound.Close` | pkg/sip/outbound.go:1352-1363 | never sends a CANCEL |
| `Outbound.SipOutbound.TransferCall` | pkg/sip/outbound.go:1288-1314 | a numbered REFER exactly if there is a dialog and no shutdown |
| `Outbound.SipOutbound.AckInviteOK` | pkg/sip/outbound.go:1138-1147 | an ACK exactly if there is a dialog |
| `Outbound.SipOutbound.AttemptInvite` | pkg/sip/outbound.go:1149-1212 | one numbered INVITE whose transaction is settled |
| `Outbound.SipOutbound.TryInvites` | pkg/sip/outbound.go:1003-1080 | at most five attempts, all but the last challenged, numbered consecutively |
| `Outbound.RetriesExactlyChallenges` | pkg/sip/outbound.go:1003-1080 | another attempt follows exactly a 401 or 407 that can be answered |
| `Outbound.SipOutbound.Invite` | pkg/sip/outbound.go:983-1095 | a dialog exists exactly if some attempt within the limit of five is answered 200 after challenges only; the result by the last response |
| `Outbound.SuccessHandledExactlyFor200` | pkg/sip/outbound.go:1003-1080 | a dial whose last attempt is answered 2xx is acknowledged or hung up if and only if the code is 200 |
| `Outbound.TriedTells` | pkg/sip/outbound.go:1003-1080 | the attempt the loop stops at tells whether the dial is answered; all before it were challenged |
| `Outbound.AnswersAtTheEnd` | pkg/sip/outbound.go:1003-1080 | the loop's last attempt tells whether the dial was answered at all |
| `Outbound.Drive` | pkg/sip/outbound.go:983-1363 | every dialog dialed once: INVITEs, then REFERs, then at most one BYE, numbered 1, 2, 3 without a hole; nothing is sent in it after a BYE of either side, and no REFER or numbered BYE after one written for shutdown |
| `Outbound.OutboundCall.Confirm` | pkg/sip/outbound.go:738-770 | what happens in the dialog from a usable 200 on, and when it succeeds |
| `Outbound.OutboundCall.SipSignal` | pkg/sip/outbound.go:658-780 | what the dialog looks like after signalling, for every outcome |
| `Outbound.OutboundCall.CloseCall` | pkg/sip/outbound.go:350-417 | a BYE exactly on the first close of a live dialog |
| `Outbound.OutboundCall.Abandon` | pkg/sip/outbound.go:723-737 | a failed INVITE closes the dialog if one exists after all |
| `Outbound.OutboundCall.Settle` | pkg/sip/outbound.go:425-445 | after signalling: started, or closed with one BYE exactly if a dialog is left and the call was not stopped |
| `Outbound.OutboundCall.ConnectSIP` | pkg/sip/outbound.go:425-445 | success, ACK, number of BYEs and the remote's BYE as conditions on the run's inputs; a call is orphaned if and only if it was stopped before dialing, got a usable 200, failed, and the remote did not hang up; two BYEs exactly in the one shutdown case |
| `Routes.Request.RemoveAll` | pkg/sip/outbound.go:1118-1120 | removes every header of a name and nothing else |
| `Routes.Request.ApplyInviteResponse` | pkg/sip/outbound.go:1101-1129 | the routes are the reversed Record-Route list, earlier ones gone; the destination survives exactly if neither target nor routes changed |
| `Routes.TargetMeans` | pkg/sip/outbound.go:1101-1114 | hosts are compared without case, and a missing port is 5060 |
| `Routes.NewReferRequest` | pkg/sip/protocol.go:258-282 | the INVITE's routes if any, else the response's Record-Route list reversed |
| `Routes.Request.SwapSrcDst` | pkg/sip/inbound.go:2094-2123 | Record-Route becomes the route set, one Via, and the parties change sides |
| `Routes.InboundRefer` | pkg/sip/inbound.go:2201-2226 | an inbound REFER carries the Record-Route list in its own order and no Record-Route |
| `Routes.OutboundRefer` | pkg/sip/outbound.go:1288-1314 | an outbound REFER carries the list reversed and none of the INVITE's own routes |
| `MediaTimeout.Run` | pkg/sip/media_port.go:477-623 | every schedule keeps the timer and the loop's view consistent with the shared fields |
| `MediaTimeout.NextWakeIsInTime` | pkg/sip/media_port.go:524-623 | while armed, a kick is pending or the timer is no later than the current deadline plus the length of the pass that set it; it is never set to fire at once |
| `MediaTimeout.FieldsFollowTheSchedule` | pkg/sip/media_port.go:477-522 | clock, last packet and arming are those of the schedule |
| `MediaTimeout.FiresOnce` | pkg/sip/media_port.go:524-623 | the callback runs at most once, whatever follows |
| `MediaTimeout.FiresExactlyPastTheLimit` | pkg/sip/media_port.go:550-623 | a pass runs the callback if and only if the limit set by everything before the pass has been reached |
| `MediaTimeout.NotEarly` | pkg/sip/media_port.go:550-623 | at a firing every packet before the pass is at least the general window old, and without one the initial window has passed since arming |
| `MediaTimeout.PrematureExactlyIfSpoiled` | pkg/sip/media_port.go:550-623 | a firing is unwanted if and only if a packet, an arming or a disarming within the pass moved the limit past the present or disarmed |
| `MediaTimeout.PassIgnores` | pkg/sip/media_port.go:556-600 | for a packet, a disarming and every re-arming, a schedule in which it comes too late to stop the callback |
| `MediaTimeout.NeverLate` | pkg/sip/media_port.go:477-623 | with bounded scheduling latency an unserved deadline is at most three latencies old |
| `MediaTimeout.KicksFollowTheSchedule` | pkg/sip/media_port.go:477-623 | a kick is pending exactly since the first arming or disarming the loop has not taken note of |
| `MediaTimeout.StopsOnlyIfClosed` | pkg/sip/media_port.go:524-540 | the loop ends only by firing or after the port was closed |
| `MediaTimeout.ClosedLoopStops` | pkg/sip/media_port.go:524-540 | and after that at its next chance |
| `MediaTimeout.ArmedIsServed` | pkg/sip/media_port.go:477-623 | on an open port, with bounded latency, the callback has run or the clock is within three latencies of the limit the schedule sets |
| `DrainPort.DrainPort` | pkg/sip/draining_port.go:26-82 | the first deciding read ends draining; the socket is closed once, before completion is signalled |
| `DrainPort.IdleMeansQuiet` | pkg/sip/draining_port.go:64-70 | an idle release means a full idle interval without a packet |
| `DrainPort.HardLimitHolds` | pkg/sip/draining_port.go:50-70 | every read before the deciding one returned by the hard limit, so at most one begins after it, and that one releases the port |
| `DrainPort.OnlyTheHardLimit` | pkg/sip/draining_port.go:36-38 | with the idle timeout disabled only the hard limit times draining out |
| `DrainPort.QuietIsReleased` | pkg/sip/draining_port.go:60-66 | a read ended by its idle deadline releases the port |
| `DrainPort.EarlyInterruptionIsIgnored` | pkg/sip/draining_port.go:64-69 | an interruption before any deadline changes nothing |
| `SilenceFiller.Filler.IsSilenceSuppression` | pkg/sip/silence_filler.go:86-118 | the number of frames skipped, for wrapping 16- and 32-bit fields |
| `SilenceFiller.Filler.FillWithSilence` | pkg/sip/silence_filler.go:120-128 | writes the frames asked for, or as many as the writer takes |
| `SilenceFiller.Filler.HandleRTP` | pkg/sip/silence_filler.go:130-158 | the skipped frames, then the packet; the packet is dropped exactly if a frame could not be written; gap count and sum are those of the stream |
| `SilenceFiller.EveryPacketOnce` | pkg/sip/silence_filler.go:130-158 | any stream: every packet passes once and in order |
| `SilenceFiller.BoundedSilence` | pkg/sip/silence_filler.go:130-158 | any stream: at most the gap limit per packet |
| `SilenceFiller.MissedIsTheGap` | pkg/sip/silence_filler.go:99-117 | across any wrap the frames reported missing are those skipped |
| `SilenceFiller.SkippedNumbersAreNoSilence` | pkg/sip/silence_filler.go:99-112 | only consecutive sequence numbers show suppressed silence |
| `SilenceFiller.MissedRoundsDown` | pkg/sip/silence_filler.go:99-117 | a jump counts as the whole frames it contains, across any wrap |
| `SilenceFiller.TooLargeIsNotFilled` | pkg/sip/silence_filler.go:130-158 | a gap above the limit is not filled, not even in part |
| `SilenceFiller.RestoresTimeline` | pkg/sip/silence_filler.go:86-158 | packet n is preceded by exactly (T_n - T_0) / frame frames of an unbounded timeline |
| `RtpStats.Diff16` | pkg/sip/media.go:321-323 | the signed 16-bit step that leads from one number to the other |
| `RtpStats.StreamStats.HandleRTP` | pkg/sip/media.go:366-398 | all counters are the account of the whole stream, by sequence number and by arrival time |
| `RtpStats.DelaysFitTheDuration` | pkg/sip/media.go:318-319 | delayed packets exceed the threshold and together fit the stream's duration; no packet is both rapid and delayed |
| `RtpStats.EveryPacketCountedOnce` | pkg/sip/media.go:366-387 | unit steps, duplicates, gaps, late packets and resets add up to the packets after the first |
| `RtpStats.SumsMatchDistance` | pkg/sip/media.go:366-387 | the sums lead from the first number to the last modulo 2^16 |
| `RtpStats.SumsAreTheTrueDistance` | pkg/sip/media.go:316-387 | for steps inside the window they are the true distance, across any wrap, and nothing is a reset |
| `RtpStats.StepIsClassified` | pkg/sip/media.go:316-387 | duplicate, next, gap, late or reset, by the distance in the sender's own numbering |
| `Dtmf.EventIdIsFaithful` | pkg/sip/media_pipeline.go:160-164 | the packed id determines timestamp and code and is never the initial sentinel |
| `Dtmf.Port.constructor` | pkg/sip/media_port.go:418 | nothing has been reported |
| `Dtmf.Port.DtmfHandler` | pkg/sip/media_pipeline.go:146-170 | the reports are the stutter-free form of the packets heard |
| `Dtmf.RunAddsOne` | pkg/sip/media_pipeline.go:160-169 | a run of packets adds its first survivor, unless it is lost whole or repeats the id before it |
| `Dtmf.EachPressOnce` | pkg/sip/media_pipeline.go:146-170 | if every run keeps a packet and neighbours differ, each press is reported once and in order |
| `Dtmf.NoneMissedExactlyWhen` | pkg/sip/media_pipeline.go:146-170 | never more reports than presses, and as many exactly under that condition |
| `OpusEncoder.Encoder.WriteSample` | pkg/media/opus/opus.go:161-185 | attempted frames followed by the buffer are the input so far, even after errors; less than a frame remains after success; the error count in every case |
| `OpusEncoder.Encoder.Append` | pkg/media/opus/opus.go:164 | appends in place or into a larger array |
| `OpusEncoder.Encoder.Shift` | pkg/media/opus/opus.go:170-171 | moving the rest to the front of the array loses only the first frame |
| `OpusEncoder.Encoder.Close` | pkg/media/opus/opus.go:187-207 | attempted and flushed frames are the input if and only if nothing had been flushed before; the buffer is not emptied; which errors are reported |
| `OpusEncoder.FramingIgnoresChunking` | pkg/media/opus/opus.go:161-185 | equal input gives equal frames however it is cut up and wherever frames are refused |
| `OpusEncoder.EncodersAgree` | pkg/media/opus/opus.go:161-185 | two encoders fed the same samples attempted the same frames |
| `DtlsMux.Classify` | pkg/sip/dtls_srtp.go:312-343 | the byte ranges of section 5.1.2 of RFC 5764 and section 4 of RFC 5761 |
| `DtlsMux.StepKeepsInv` | pkg/sip/dtls_srtp.go:301-355 | every action keeps queues bounded and each endpoint's packets in order |
| `DtlsMux.EveryArrivalIsAccountedFor` | pkg/sip/dtls_srtp.go:312-343 | every packet read is handled or in hand |
| `DtlsMux.EachEndpointGetsItsClass` | pkg/sip/dtls_srtp.go:312-355 | each endpoint received its class in order, all of it while open, a subsequence after a close |
| `DtlsMux.ClosedOnlyByClosing` | pkg/sip/dtls_srtp.go:312-355 | endpoints and mux are closed by the events that close them and by nothing else |
| `DtlsMux.CompleteWhileOpen` | pkg/sip/dtls_srtp.go:312-355 | in a schedule without a close each endpoint has its whole class, up to the packet in hand |
| `DtlsMux.HandIsEmptied` | pkg/sip/dtls_srtp.go:312-343 | the packet in hand waits only for room in its own queue |
| `DtlsMux.ReaderGetsTheOldest` | pkg/sip/dtls_srtp.go:348-355 | a reader gets the oldest packet of its queue |
| `DtlsMux.ClosedMuxExits` | pkg/sip/dtls_srtp.go:312-347 | a closed mux lets go of its packet and stops reading |
| `DtlsMux.FailedReadEnds` | pkg/sip/dtls_srtp.go:312-320 | a failed read ends the loop and closes the mux |
| `DtlsMux.ClosedEndpointHoldsNothingUp` | pkg/sip/dtls_srtp.go:333-343 | a packet for a closed endpoint does not hold up the others |
| `DtlsMux.NoPacketTwice` | pkg/sip/dtls_srtp.go:312-355 | every packet reaches only its own class's endpoint, and no more often than it arrived |
| `SdpAnswer.Media.DropOwned` | pkg/sip/dtls_sdp.go:198-203 | compacting the array while reading it yields the filtered list |
| `SdpAnswer.Media.Rewrite` | pkg/sip/dtls_sdp.go:197-219 | profile and attributes of the section afterwards, on success and on an address error |
| `SdpAnswer.AddDTLSAnswer` | pkg/sip/dtls_sdp.go:192-223 | the first audio section is rewritten, every other one untouched, an answer without one refused untouched; the local ICE address is that of the answer |
| `SdpAnswer.OneOfEach` | pkg/sip/dtls_sdp.go:198-204 | one fingerprint, one setup, one rtcp-mux, all ours, and no crypto |
| `SdpAnswer.IceTail` | pkg/sip/dtls_sdp.go:213-218 | with ICE the section ends in our credentials and one host candidate |
| `SdpAnswer.OthersKept` | pkg/sip/dtls_sdp.go:198-219 | every other attribute stays, in order |
| `SdpAnswer.KeptCounts` | pkg/sip/dtls_sdp.go:198-203 | the filter loses and repeats nothing it does not own |
| `SdpAnswer.TwiceIsOnceExactlyWithoutIce` | pkg/sip/dtls_sdp.go:198-219 | rewriting again changes nothing if and only if no ICE attributes are added |
| `RoomRecovery.RunKeepsInv` | pkg/sip/room.go:570-677 | in every schedule each audio track of a live call is subscribed or about to be |
| `RoomRecovery.AllAudioIsSubscribed` | pkg/sip/room.go:587-677 | in every schedule that is in a call and not recovering, with nothing on its way and no recovery misjudged, exactly the published audio tracks are subscribed |
| `RoomRecovery.AudioGetsSubscribed` | pkg/sip/room.go:587-677 | from every such schedule, finishing what is under way and nothing else gets there |
| `RoomRecovery.StandingFollowsTheSchedule` | pkg/sip/room.go:655-677 | room, answer, close and disconnect are those of the schedule |
| `RoomRecovery.TracksFollowTheSchedule` | pkg/sip/room.go:446-453 | the tracks are those published and not taken back |
| `RoomRecovery.NothingBeforeAnswer` | pkg/sip/room.go:446-453 | nothing is subscribed before the call is answered |
| `RoomRecovery.RecoveriesAreCounted` | pkg/sip/room.go:587-637 | resumes are the recoveries that found a room after a loss alone, reconnects the others that found one |
| `RoomRecovery.MisjudgedExactlyOnOverlap` | pkg/sip/room.go:570-637 | a rebuilt session is taken for a resume, and so misjudged, if and only if the schedule reports a loss again after the rebuild |
| `RoomRecovery.FlagsFollowTheSchedule` | pkg/sip/room.go:570-637 | room, rebuild, resumability and misjudgement are what the connection events of the schedule say |
| `RoomRecovery.NoOverlapNoMisjudgement` | pkg/sip/room.go:570-637 | a schedule in which no recovery follows a rebuild and a later loss misjudges none |
| `RoomRecovery.OverlappingLossesLoseAudio` | pkg/sip/room.go:570-637 | a schedule that leaves a published track unsubscribed with nothing on its way |
| `RoomRecovery.StrandedForGood` | pkg/sip/room.go:570-677 | every continuation without a republication, an answer or a recovery taken for a reconnect leaves such a track unsubscribed |

## Left out

- Notify.ParseNotifyBody: its own contract bounds the code; Notify.BodyDecided states what every body reads as.
- Notify.ParseEvent: its own contract bounds the id; Notify.EventReads states the value of a printed one.
- Notify.HandleNotify: its own contract bounds the parts; Notify.NotifyRoundTrip states them for a well-formed NOTIFY.
- Outbound.OutboundCall.SipSignal: the remote hangs up at most once per dial, between any two steps.
- Outbound.OutboundCall.ConnectSIP: during shutdown the remote's BYE may still reach the dialog; the client forgets its calls first (pkg/sip/client.go:148-151), so in the source that holds only for a BYE already dispatched.
- The racing goroutines of pkg/sip/service.go, protocol.go, media_port.go, dtls_srtp.go and room.go are modelled on values, one atomic action per event, not as objects: aliasing between goroutines below that granularity is not captured.
- `processParticipantTransfer`, dial tones and the RPC plumbing: an outcome is any value the worker offers.
- Route and dialog operations on failed writes: a response or request that could not be written counts as sent, except the ACK.
- `AcceptAsKeepAlive`, the caches of rejected and provisional INVITEs, and the ringing goroutine's handling of CANCEL.
- Inbound.SipInbound.AcceptBye, Outbound.SipOutbound.AcceptBye: the 200 to the remote's BYE is counted, but not placed among the other messages, because it is sent before the mutex is taken.
- OutboundTx.RunTransaction: the watcher's messages are recorded when the transaction is handed to it, although it runs in the background.
- Outbound.OutboundCall.CloseCall: models only the dialog, not media, room and reporting.
- Routes.Request.SwapSrcDst: does not model the source and destination addresses or the recipient, which are copied.
- RtpStats.StreamStats.HandleRTP: counters do not wrap at 64 bits.
- MediaTimeout.Run: one pass reads the shared fields in one action; re-arming between two of those reads is not captured.
- DrainPort.DrainPort: the reads of the clock within one iteration, after the socket returned, are one reading.
- RoomRecovery.AllAudioIsSubscribed: assumes that subscribe requests succeed and that the session id changes exactly on a rebuild.
- Notify.HandleNotify, SubscriptionState.ParseSubscriptionState: texts are ASCII; case folding and white space beyond ASCII are not modelled.
- Dtmf.Port.DtmfHandler: the payload decoder is an environment; its result is a parameter.
- OpusEncoder.Encoder.WriteSample: samples are unbounded integers, and the codec is an environment that accepts or refuses a frame.
- SdpAnswer.AddDTLSAnswer: parsing an address is an environment; the local ICE address is a result instead of a field of the configuration.
- Digest authentication, status-code tables, header and attribute maps, URI builders, signal levels, rate statistics, configuration, logging and metrics: shallow or foreign.
