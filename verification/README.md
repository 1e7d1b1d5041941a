# modem2sip, verified

modem2sip bridges one LTE modem to SIP: calls in both directions, in-band digits, SMS and MMS.
This project models the parts of it whose correctness spans many steps or both ends of a wire
format, and proves what they promise.  `dafny verify dfyconfig.toml` checks everything.

- **Calls** (`GatewayModel`, `GatewaySafety`, `GatewayTheorems`, `GatewayLedger`, `GatewayExact`, `GatewayWitness`,
  `Gateway`, `InviteTask`).  One task owns
  all call state, so every handler is one atomic step over the call, the modem and a trace of
  everything sent.  `GatewaySafety` judges each output against the history before it and proves that
  every reachable state keeps the invariant; `GatewayTheorems` reads the results off the plain sequence
  of outputs.  Where the code falls short, `GatewayExact` says on exactly which event and
  `GatewayWitness` gives a run that gets there.  `Gateway` is the event loop as an object, proved to perform exactly those steps.
  What the outside decides (D-Bus results, whether audio opens, which port was free) is an input of
  the step.  Assumed of the environment: Call-IDs of different calls differ, the modem reports an
  incoming leg active only after Accept, socket sends succeed, the early-media watcher reports only on
  calls received from SIP (nothing else starts it), and a response task delivers one terminal event
  (`InviteTask` proves that of its loop).
- **Transactions** (`ServerTransactions`, `NonceCounts`, `AckTimers`).  Three maps with expiry, over every
  interleaving of their operations with garbage collection, on one non-decreasing clock.
- **SDP** (`Sdp`, `SdpText`).  Offer and answer, and the text form.
- **SIP text** (`SipUri`, `SipUriStable`, `SipMessage`, `SipHeaders`, `Text`).  Printers, parsers and their round trips.
- **MMS** (`Wsp`, `WspReader`, `MmsPdu`, `MmsCoder`, `MmsRoundTrip`, `MmsStore`).  A cursor reader that is total
  on any bytes, the writer it inverts, and the storing of a retrieved message with a stop possible
  after any effect.
- **DNS** (`Dns`).  Query, names with compression, which datagrams count as ours, and their records.
- **Media** (`AudioRings`, `Resampler`, `DtmfDebounce`, `RtpPorts`).  Ring buffers, a chunked resampler, the
  digit automaton and the port walk.

Code that changes things step by step is a class or a method with loops, each proved equal to a
function; the theorems are about those functions.

## Where the code does less than one might expect

- A re-INVITE whose SDP has no media is answered from the SDP before it, so a hold by null address may get
  the wrong direction and an offer with port 0 gets a port; `ReinviteAnswersItsOffer` is the exact
  condition, `HoldAnsweredFromTheOldSdp` and `PortZeroAnsweredWithAPort` are runs.
- A BYE before the answer leaves the stored INVITE without a final response for good
  (`ByeBeforeTheAnswer`, `ByeBeforeTheAnswerRun`).
- A modem that reports ringing only after the call is active makes the gateway send 180 after its 200;
  nothing else does (`ProvisionalAfterFinal`, `RingingAfterTheAnswer`).
- An INVITE with the Call-ID of a call not answered yet is never answered; on a call we placed a 180 goes out
  for our own INVITE (`RepeatIsNeverAnswered`, `OwnCallIdInvite`).  Retransmissions within 32 s do not get this
  far, they are answered from the transaction cache.
- A digit from the mobile side before the answer is sent as INFO outside any dialog (`InfoOutsideADialog`,
  `DigitBeforeTheAnswer`).
- A header value whose only control characters are C1 keeps them (`HeaderSafeDropsControls`).
- Names of 128 or more labels, longer than section 3.1 of RFC 1035 allows, are built but never recognised in an
  answer (`EchoIsOurs`, `HostOf128Labels`).
- A parsed URI does not always survive printing (`SipUriStable.ReprintIsStable`, `HostlessUserIsUnstable`).
- The comment on the digit detector asks for three consecutive frames; single misses between hits
  are tolerated (`HitsWithGapsAreReported`).

## Model

| member | source | states |
|---|---|---|
| `GatewayTheorems.NoStrandedLeg` | src/gateway.rs:226-277 | in every run, each leg dialled or offered is the leg of the one current call, or a later hangup was issued for it, or the modem later went away |
| `GatewayTheorems.CurrentLegIsUp` | src/gateway.rs:72-128 | the leg of the current call was started and has been neither hung up nor lost since |
| `GatewayTheorems.OneLegAtATime` | src/gateway.rs:226-277 | no leg is dialled or offered while any other leg is still up |
| `GatewayTheorems.AtMostOneFinal` | src/gateway.rs:558-586 | no request gets two final responses in any run |
| `GatewayTheorems.ReceivedCallEnds` | src/gateway.rs:1496-1570 | a call received from SIP is dropped with exactly one final sent (a failure of at least 400, or a 200 with a BYE from either side) for every cause but the caller's BYE, which may come before any final |
| `GatewayTheorems.PlacedCallEnds` | src/gateway.rs:1496-1595 | a call placed to SIP is dropped only after BYE on an acknowledged dialog, or CANCEL, or the peer's own BYE or rejection |
| `GatewayTheorems.PlacedCallRequests` | src/gateway.rs:1195-1276 | at most two INVITEs per call, none after ACK or CANCEL; every failure ACK and CANCEL repeats branch and number of the latest INVITE; the 2xx ACK goes out once and carries its number; CANCEL at most once and only before the ACK |
| `GatewayTheorems.FreshTransactions` | src/gateway.rs:2043-2055 | any two requests that open a transaction have different branches, and the later one the higher CSeq |
| `GatewayTheorems.AcceptAfterAckAndMedia` | src/gateway.rs:1278-1348 | Accept is issued at most once per call, on a leg that is up, and only after the 2xx was acknowledged and media runs |
| `GatewayTheorems.ByeOnlyOnADialog` | src/gateway.rs:1496-1545 | BYE at most once per call, and only after our ACK or after our 200 |
| `GatewayTheorems.SdpAnswers` | src/gateway.rs:558-586 | every SDP answer (183, 200, re-INVITE 200) names the port bound at setup and no telephone-event type but the one media decodes; for a received call also the codec first negotiated, and it conforms to the SDP it was built from |
| `GatewayTheorems.PortHasOneOwner` | src/gateway.rs:1403-1494 | throughout a run exactly one of socket and media session holds the port of the call |
| `GatewayTheorems.ReinviteAnswersItsOffer` | src/gateway.rs:770-820 | the answer to an accepted re-INVITE conforms to the SDP that re-INVITE carried (sections 6.1 and 8.2 of RFC 3264) if and only if that SDP has media, or has a port, lists the codec, allows the reverse of the stored direction and does not contradict the agreed event type |
| `GatewayTheorems.EveryRequestIsAnswered` | src/gateway.rs:590-746 | every delivered request but MESSAGE has exactly one final after its step, and none if and only if it is the INVITE that becomes the call or carries the Call-ID of a call not answered yet |
| `GatewayLedger.StepBooks` | src/gateway.rs:138-186 | what any step adds to late provisionals, INFOs outside a dialog, SDP answers and responses to other requests: nothing but one late ring, one stray INFO or one answer from the current SDP, each on its one kind of event |
| `GatewayLedger.StepKeepsTheCall` | src/gateway.rs:138-186 | the call a step leaves is the one it found or one for the request that arrived, and its SDP is the current one |
| `GatewayExact.ProvisionalAfterFinal` | src/gateway.rs:396-412 | in every run a provisional follows the final of its own request if and only if the modem reports ringing on the leg of a received call that is answered and was never rung |
| `GatewayExact.InfoOutsideADialog` | src/gateway.rs:1613-1631 | in every run an INFO leaves outside an established dialog if and only if a digit comes from the mobile side before the answer |
| `GatewayExact.AnswersTheCurrentSdp` | src/gateway.rs:558-586 | a step sends at most one SDP answer, built from the SDP of the INVITE that set the call up, of the 2xx, or of the last accepted re-INVITE with media |
| `GatewayExact.EveryAnswerHasItsOffer` | src/gateway.rs:558-586 | every SDP answer of a run was built from an SDP the delivered events had made current |
| `GatewayExact.NoMoreResponses` | src/gateway.rs:138-186 | a request that has been delivered and is not the one the call keeps never gets another response |
| `GatewayExact.RepeatIsNeverAnswered` | src/gateway.rs:619-638 | an INVITE with the Call-ID of a call not answered yet gets no response at all, however the run goes on |
| `GatewayExact.ByeAddsNoFinal` | src/gateway.rs:823-838 | after an in-dialog BYE on a received call its INVITE has the 200 if it was answered and no final if it was not |
| `GatewayExact.ByeBeforeTheAnswer` | src/gateway.rs:823-838 | and that stays so for the rest of every run |
| `GatewayWitness.RingingAfterTheAnswer` | src/gateway.rs:396-412 | a run of four events that ends with 180 after 200 |
| `GatewayWitness.ByeBeforeTheAnswerRun` | src/gateway.rs:823-838 | a run of three events that drops the call with no final sent |
| `GatewayWitness.HoldAnsweredFromTheOldSdp` | src/gateway.rs:770-820 | a run in which a sendonly hold by null address is answered sendrecv |
| `GatewayWitness.PortZeroAnsweredWithAPort` | src/gateway.rs:770-820 | a run in which an offer with port zero is answered with our port |
| `GatewayWitness.OwnCallIdInvite` | src/gateway.rs:619-638 | a run in which the peer's INVITE with the Call-ID of our own gets nothing and a 180 goes out for ours |
| `GatewayWitness.DigitBeforeTheAnswer` | src/gateway.rs:1613-1631 | a run in which an INFO goes out before any dialog |
| `GatewaySafety.StepKeeps` | src/gateway.rs:138-186 | every event the environment may deliver keeps the invariant that ties the call's flags to what was sent |
| `GatewaySafety.RunKeeps` | src/gateway.rs:138-186 | every reachable state satisfies that invariant, so every output of every run was permitted |
| `GatewaySafety.TeardownKeeps` | src/gateway.rs:1496-1570 | teardown from any point of a handler leaves no call, no open leg, and only permitted outputs |
| `GatewaySafety.RejectedKeeps` | src/gateway.rs:1046-1075 | a rejection or a digest challenge, with or without a second INVITE, keeps the invariant |
| `GatewaySafety.ReinviteKeeps` | src/gateway.rs:748-820 | a re-INVITE on an answered call keeps the invariant |
| `GatewaySafety.AnsweredKeeps` | src/gateway.rs:1278-1348 | a 2xx, with media and Accept succeeding or failing, keeps the invariant |
| `GatewayTask.Gateway.constructor` | src/gateway.rs:138-150 | the idle gateway |
| `GatewayTask.Gateway.DoHangupLeg` | src/gateway.rs:1566-1568 | hangs up the leg of the call if the modem is there |
| `GatewayTask.Gateway.DoFinishCall` | src/gateway.rs:1587-1595 | drops the call and records why |
| `GatewayTask.Gateway.DoSendProvisional` | src/gateway.rs:1597-1611 | a provisional for the stored INVITE; 180 is remembered |
| `GatewayTask.Gateway.DoCancelOutgoingInvite` | src/gateway.rs:1573-1585 | CANCEL with the INVITE's branch and number, only for an unanswered call we placed |
| `GatewayTask.Gateway.DoTeardownCall` | src/gateway.rs:1496-1570 | BYE, failure response of at least 400, or CANCEL; then hangup and drop |
| `GatewayTask.Gateway.DoSendDtmfInfo` | src/gateway.rs:1613-1631 | INFO with a fresh number, whether or not the dialog is up |
| `GatewayTask.Gateway.DoStartMedia` | src/gateway.rs:1403-1494 | moves the port from socket to media session, or changes nothing |
| `GatewayTask.Gateway.DoRespondWithMedia` | src/gateway.rs:558-586 | starts media if needed and answers the stored SDP |
| `GatewayTask.Gateway.DoStartEarlyMedia` | src/gateway.rs:507-540 | opens media for ringing and sends 180 |
| `GatewayTask.Gateway.DoUpgradeToEarlyMedia` | src/gateway.rs:542-556 | one 183 with SDP, not after the answer |
| `GatewayTask.Gateway.DoModemDown` | src/gateway.rs:197-204 | forgets the modem and tears the call down with 503 |
| `GatewayTask.Gateway.DoCallAdded` | src/gateway.rs:226-277 | ignores, deletes, hangs up or offers a new leg |
| `GatewayTask.Gateway.DoModemAnswered` | src/gateway.rs:434-505 | 200 for a received call, or teardown when media fails |
| `GatewayTask.Gateway.DoCallState` | src/gateway.rs:378-432 | alerting, active and terminated, with the failure code for the reason |
| `GatewayTask.Gateway.DoInvite` | src/gateway.rs:618-642 | new call, repetition, re-INVITE or busy |
| `GatewayTask.Gateway.DoNewInvite` | src/gateway.rs:643-746 | every refusal of a first INVITE, or the call it sets up |
| `GatewayTask.Gateway.DoRepeatedInvite` | src/gateway.rs:619-638 | repeats the last provisional until the answer, re-INVITE after it |
| `GatewayTask.Gateway.DoReinvite` | src/gateway.rs:748-820 | 491, 481, 488 or an answer from the offer or the stored SDP |
| `GatewayTask.Gateway.DoBye` | src/gateway.rs:823-838 | 200 and drop in dialog, 481 otherwise |
| `GatewayTask.Gateway.DoCancel` | src/gateway.rs:840-882 | 200, and 487 with hangup when it matches the unanswered INVITE |
| `GatewayTask.Gateway.DoInfo` | src/gateway.rs:884-908 | 415, 200, 481 or 500 by content, dialog and delivery |
| `GatewayTask.Gateway.DoRejected` | src/gateway.rs:1046-1075 | ACK of the failure, then one digest retry or drop with hangup |
| `GatewayTask.Gateway.DoRingTimeout` | src/gateway.rs:1096-1109 | CANCEL, hangup, drop |
| `GatewayTask.Gateway.DoAckAnswer` | src/gateway.rs:1278-1300 | remote tag, ACK with the INVITE's number, dialog established |
| `GatewayTask.Gateway.DoAnswered` | src/gateway.rs:1278-1348 | ACK first, then media, then Accept, with teardown on any failure |
| `GatewayTask.Gateway.DoCheckMedia` | src/gateway.rs:1374-1401 | teardown on audio failure, or on silence from a peer that should send |
| `GatewayTask.Gateway.DoModemEvent` | src/gateway.rs:190-224 | the modem's events, each to its handler |
| `GatewayTask.Gateway.DoSipRequest` | src/gateway.rs:590-606 | requests by method |
| `GatewayTask.Gateway.DoInternal` | src/gateway.rs:1032-1109 | internal events, for the current call only |
| `GatewayTask.Gateway.DoStep` | src/gateway.rs:138-186 | one turn of the event loop is the model's step |
| `GatewayTask.Gateway.Loop` | src/gateway.rs:138-186 | the whole loop, under the environment assumptions, is the model's run and keeps the invariant |
| `InviteTask.OneTerminalEvent` | src/gateway.rs:1960-1997 | progress events only, then at most one terminal event; exactly one if and only if some turn is not a provisional response |
| `InviteTask.FirstDecides` | src/gateway.rs:1960-1997 | the terminal event is decided by the first such turn and nothing after it is read |
| `InviteTask.ResponseTask` | src/gateway.rs:1960-1997 | the loop sends exactly those events |
| `SdpModel.AnswerConforms` | src/sip/sdp.rs:200-219 | an answer conforms to its offer (sections 6.1 and 8.2 of RFC 3264) if and only if the codec it names was offered and the offer has a port or the answer has none |
| `SdpModel.NegotiateIsFirst` | src/sip/sdp.rs:186-188 | the negotiated codec is the earliest supported entry; none only if no entry is supported |
| `SdpText.SdpRoundTrip` | src/sip/sdp.rs:100-180 | parsing a rendered description gives it back, with the telephone-event type appended to the payload list; none if that list is empty |
| `SdpText.AnswerIsUnderstood` | src/sip/sdp.rs:200-253 | who parses our rendered answer negotiates the codec we named and sees our port, event type and reversed direction |
| `SdpText.ReadSdp` | src/sip/sdp.rs:100-180 | the line loop computes the parse |
| `ServerTransactions.CollectionIsSafe` | src/sip/core.rs:207-217 | garbage collection only forgets transactions past their lifetime, in every run |
| `ServerTransactions.CollectionIsInvisible` | src/sip/core.rs:813-826 | every claim has the outcome it would have if nothing were ever collected |
| `ServerTransactions.AtMostOnce` | src/sip/core.rs:282-305 | two fresh claims of one key are at least 32 s apart in every interleaving |
| `ServerTransactions.CopiesGetTheLatest` | src/sip/core.rs:572-582 | every other copy gets the latest final once there is one, else the latest provisional; a provisional never replaces a final |
| `ServerTransactions.DialogKeysDiffer` | src/sip/core.rs:858-862 | the ACK of one INVITE is never taken for that of another |
| `ServerTransactions.TxnKeysDiffer` | src/sip/core.rs:865-870 | equal transaction keys mean equal branch, number and method |
| `ServerTransactions.ServerCache.ClaimTxn` | src/sip/core.rs:813-826 | the claim and the new cache |
| `ServerTransactions.ServerCache.Remember` | src/sip/core.rs:572-582 | a final is stored, a provisional only while in progress |
| `ServerTransactions.ServerCache.Collect` | src/sip/core.rs:207-217 | the sweep drops exactly the dead entries of a large cache |
| `NonceCounts.IssuedNonceIsValid` | src/sip/auth.rs:270-284 | an issued nonce is valid if and only if the clock is between its second and 300 s (any maximum age) later |
| `NonceCounts.CountsAreKept` | src/sip/core.rs:434-452 | while a nonce is valid its highest accepted count is still in the table, collected or not |
| `NonceCounts.CountsIncrease` | src/sip/core.rs:434-452 | accepted counts of one nonce strictly increase over every run |
| `NonceCounts.NoReplay` | src/sip/core.rs:381-389 | no pair of nonce and count is accepted twice although collection forgets nonces |
| `NonceCounts.HigherCountIsAccepted` | src/sip/core.rs:434-452 | a valid nonce with a higher count and right credentials is accepted |
| `NonceCounts.NonceTable.ClaimNonce` | src/sip/core.rs:434-452 | the claim and the new table |
| `NonceCounts.NonceTable.CheckAuth` | src/sip/core.rs:381-389 | only otherwise right credentials consume the nonce |
| `NonceCounts.NonceTable.Collect` | src/sip/core.rs:207-217 | the sweep forgets entries 600 s after first use, in a large table |
| `AckTimers.RunKeeps` | src/sip/core.rs:597-632 | every run of answers, ACKs, ticks and expiries keeps the timer invariant |
| `AckTimers.PendingIsTheLiveTimers` | src/sip/core.rs:597-632 | an entry of the map names a timer if and only if that timer exists, has the key, is alive and not stopped |
| `AckTimers.AtMostElevenResends` | src/sip/core.rs:608-622 | no timer resends more than 11 times; one that runs out resent exactly 11 times |
| `AckTimers.StoppedStaysSilent` | src/sip/core.rs:608-622 | a stopped timer never resends again, however the run goes on |
| `AckTimers.AckAndAnswerStop` | src/sip/core.rs:268-275 | an ACK, or a newer answer, stops the pending one |
| `AckTimers.ExpiryKeepsNewer` | src/sip/core.rs:625-631 | an expiring timer never removes a newer entry |
| `AckTimers.PendingAcks.RetransmitUntilAcked` | src/sip/core.rs:597-606 | replaces and stops the previous answer of the key |
| `AckTimers.PendingAcks.OnAck` | src/sip/core.rs:268-275 | stops and removes the pending answer |
| `AckTimers.PendingAcks.RunTimer` | src/sip/core.rs:608-631 | the loop of an undisturbed timer: 11 resends over 35.5 s, then only its own entry goes |
| `Wsp.U8` | src/mms/wsp.rs:166-170 | on every byte string: one byte or none; the cursor stays in the buffer |
| `Wsp.Take` | src/mms/wsp.rs:172-180 | on every byte string: exactly the bytes asked for if and only if they are there; otherwise the cursor stays |
| `Wsp.Uintvar` | src/mms/wsp.rs:182-193 | on every byte string: at most eight groups; a value means progress |
| `Wsp.TextString` | src/mms/wsp.rs:195-216 | on every byte string: progress on any non-empty rest |
| `Wsp.BoundedValueLength` | src/mms/wsp.rs:239-243 | on every byte string: a length never points past the buffer |
| `Wsp.LongInt` | src/mms/wsp.rs:245-253 | on every byte string: progress on any non-empty rest |
| `Wsp.EncodedString` | src/mms/wsp.rs:266-291 | on every byte string: cursor in bounds, progress when a value is read |
| `Wsp.Parameter` | src/mms/wsp.rs:323-358 | on every byte string: progress on any non-empty rest |
| `Wsp.ContentType` | src/mms/wsp.rs:293-321 | on every byte string: cursor in bounds, progress when a type is read |
| `Wsp.SkipValue` | src/mms/wsp.rs:361-375 | on every byte string: cursor in bounds, progress when a value is skipped |
| `Wsp.ContentTypeCode` | src/mms/wsp.rs:78-83 | a code is found if and only if some table entry equals the name up to ASCII case, and is the code of that name |
| `Wsp.UintvarRoundTrip` | src/mms/wsp.rs:379-394 | a uintvar is read back if and only if it fits eight groups of seven bits |
| `Wsp.UintvarReadAt` | src/mms/wsp.rs:182-193 | a written uintvar is read back anywhere in a buffer |
| `Wsp.IntegerReadAt` | src/mms/wsp.rs:435-455 | integers survive in their short or long form |
| `Wsp.TextReadAt` | src/mms/wsp.rs:396-403 | text without NUL and quote byte survives |
| `Wsp.CountedReadAt` | src/mms/wsp.rs:405-414 | a counted block is found again |
| `Wsp.EncodedReadAt` | src/mms/wsp.rs:416-433 | ASCII and non-ASCII text survives with its character set |
| `WspReader.Reader.constructor` | src/mms/wsp.rs:150-152 | a reader at the start of its buffer |
| `WspReader.Reader.GetU8` | src/mms/wsp.rs:166-170 | the cursor method returns and moves as the reader function says |
| `WspReader.Reader.GetTake` | src/mms/wsp.rs:172-180 | the cursor method returns and moves as the reader function says |
| `WspReader.Reader.GetUintvar` | src/mms/wsp.rs:182-193 | the cursor method returns and moves as the reader function says |
| `WspReader.Reader.GetTextString` | src/mms/wsp.rs:195-216 | the cursor method returns and moves as the reader function says |
| `WspReader.Reader.GetValueLength` | src/mms/wsp.rs:218-237 | the cursor method returns and moves as the reader function says |
| `WspReader.Reader.GetBoundedValueLength` | src/mms/wsp.rs:239-243 | the cursor method returns and moves as the reader function says |
| `WspReader.Reader.GetLongInt` | src/mms/wsp.rs:245-253 | the cursor method returns and moves as the reader function says |
| `WspReader.Reader.GetIntegerValue` | src/mms/wsp.rs:255-264 | the cursor method returns and moves as the reader function says |
| `WspReader.Reader.GetEncodedString` | src/mms/wsp.rs:266-291 | the cursor method returns and moves as the reader function says |
| `WspReader.Reader.GetParameter` | src/mms/wsp.rs:323-358 | the cursor method returns and moves as the reader function says |
| `WspReader.Reader.GetContentType` | src/mms/wsp.rs:293-321 | the cursor method returns and moves as the reader function says |
| `WspReader.Reader.GetParameterList` | src/mms/wsp.rs:308-319 | the cursor method returns and moves as the reader function says |
| `WspReader.Reader.GetSkipValue` | src/mms/wsp.rs:361-375 | the cursor method returns and moves as the reader function says |
| `WspReader.WriteUintvar` | src/mms/wsp.rs:379-394 | appends exactly the bytes the reader inverts |
| `WspReader.WriteTextString` | src/mms/wsp.rs:396-403 | appends exactly the bytes the reader inverts |
| `WspReader.WriteValueLength` | src/mms/wsp.rs:405-414 | appends exactly the bytes the reader inverts |
| `WspReader.WriteEncodedString` | src/mms/wsp.rs:416-433 | appends exactly the bytes the reader inverts |
| `WspReader.WriteIntegerValue` | src/mms/wsp.rs:435-441 | appends exactly the bytes the reader inverts |
| `WspReader.WriteLongInt` | src/mms/wsp.rs:443-455 | appends exactly the bytes the reader inverts |
| `MmsPdu.DecodeHeaders` | src/mms/pdu.rs:172-259 | every turn of the header loop consumes input; the body starts after the headers and inside the data |
| `MmsPdu.PartHeaders` | src/mms/pdu.rs:308-322 | the part header loop consumes input and never touches data, type or parameters |
| `MmsPdu.MultipartIsBounded` | src/mms/pdu.rs:287-327 | on any body: at most 256 parts whose payloads are disjoint in-order slices, together no larger than the body |
| `MmsPdu.ParseWapPush` | src/mms/mod.rs:27-47 | the push body is the tail of the datagram after its headers |
| `MmsPdu.WapPushReadBack` | src/mms/mod.rs:27-47 | a push is parsed if and only if its headers start with a readable content type, and gives that type and its body |
| `MmsRoundTrip.SendReqRoundTrip` | src/mms/pdu.rs:356-425 | decoding an encoded M-Send.req recovers transaction id, formatted sender and recipients, subject and every part |
| `MmsRoundTrip.ReceivedKeepsEverything` | src/mms/pdu.rs:427-463 | a recovered part has the same data, name, content id and location, and the content type up to ASCII case |
| `MmsRoundTrip.PartRead` | src/mms/pdu.rs:301-325 | one part's header block is read back whole |
| `MmsRoundTrip.BracketsStripped` | src/mms/pdu.rs:312-312 | a content id loses exactly the brackets it was sent in |
| `MmsCoder.DecodeMessage` | src/mms/pdu.rs:167-280 | the decoder loop computes the decoding, on any bytes |
| `MmsCoder.ReadMultipart` | src/mms/pdu.rs:287-327 | the part loop computes the parts |
| `MmsCoder.ReadPart` | src/mms/pdu.rs:301-325 | the part header loop |
| `MmsCoder.WriteSendReq` | src/mms/pdu.rs:356-425 | the encoder writes exactly the encoding |
| `MmsCoder.WriteMultipart` | src/mms/pdu.rs:427-463 | the part encoder loop |
| `MmsCoder.WritePartHeaders` | src/mms/pdu.rs:430-455 | one part's header block |
| `MmsCoder.ReadWapPush` | src/mms/mod.rs:27-47 | the push parser computes the parse, on any bytes |
| `SipUri.UriRoundTrip` | src/sip/uri.rs:29-149 | every sip, sips or tel URI whose fields avoid their delimiters, with or without port, password, parameters, headers or IPv6 host, is parsed back from its printed form (section 19.1.1 of RFC 3261) |
| `SipUriStable.ReprintIsStable` | src/sip/uri.rs:29-149 | for every text that parses: printing the URI and parsing it again changes nothing if and only if no white space follows the lists, a tel URI has no password, a URI without host no user, and the host can be told from its port (by bracket, colon and space) |
| `SipUriStable.HostExactly` | src/sip/uri.rs:249-274 | host and port of a parsed URI are read back if and only if that last condition holds |
| `SipUriStable.HostlessUserIsUnstable` | src/sip/uri.rs:118-149 | every text of a user with an empty host parses and does not survive printing |
| `SipUri.HostPortReadBack` | src/sip/uri.rs:249-274 | host and port are told apart, bracketed or not |
| `SipUri.NameAddrRoundTrip` | src/sip/uri.rs:164-247 | a name-addr is parsed back with display name, URI and parameters |
| `SipUri.SetAddrParamReads` | src/sip/uri.rs:216-224 | a set parameter is seen under any spelling of its name and no other parameter changes |
| `SipUri.ReadParams` | src/sip/uri.rs:70-77 | the parameter loop computes the parse |
| `SipUri.ReadHeaders` | src/sip/uri.rs:79-86 | the header loop computes the parse |
| `SipUri.ReadAddrParams` | src/sip/uri.rs:191-201 | the name-addr parameter loop computes the parse |
| `SipMessage.FramingRoundTrip` | src/sip/message.rs:284-392 | for every request or response, whatever its values, reason and body hold: same names in the same order, values made safe and trimmed, same body, only Content-Length added or corrected |
| `SipMessage.ForwardingIsStable` | src/sip/message.rs:284-392 | a message that arrived and is sent on arrives unchanged |
| `SipMessage.HeaderSafeNoBreak` | src/sip/message.rs:365-371 | no value can end its own line |
| `SipMessage.HeaderSafeDropsControls` | src/sip/message.rs:365-371 | all control characters are dropped if and only if the value has a C0 control or DEL, or has none at all |
| `SipMessage.C1OnlyIsKept` | src/sip/message.rs:365-371 | a value whose only control is C1 keeps it |
| `SipMessage.CanonicalIdempotent` | src/sip/message.rs:76-95 | a canonical name is its own canonical form, for every name |
| `SipMessage.PrettyReadBack` | src/sip/message.rs:98-121 | the capitals of a printed name are taken off again |
| `SipMessage.BlankFound` | src/sip/message.rs:323-332 | the first blank line of a datagram is the one that ends the head |
| `SipMessage.UnfoldJoin` | src/sip/message.rs:342-357 | unfolding leaves a head of clean lines alone |
| `SipMessage.FramedLength` | src/sip/message.rs:373-391 | whichever Content-Length comes first, it announces the body |
| `SipMessage.MethodReadBack` | src/sip/message.rs:28-63 | every method name is read back |
| `SipHeaders.SetReads` | src/sip/message.rs:134-138 | after set there is one value of that name and every other name reads as before |
| `SipHeaders.ReplaceFirstReads` | src/sip/message.rs:147-153 | replacing the first occurrence keeps the rest of that list, every other name and all positions |
| `SipHeaders.Headers.GetFirst` | src/sip/message.rs:124-127 | first value of a name |
| `SipHeaders.Headers.Every` | src/sip/message.rs:129-132 | all values of a name, in order |
| `SipHeaders.Headers.Set` | src/sip/message.rs:134-138 | one value, others untouched |
| `SipHeaders.Headers.Push` | src/sip/message.rs:140-142 | appended to that name's list |
| `SipHeaders.Headers.ReplaceFirst` | src/sip/message.rs:147-153 | replaced in place or appended |
| `SipHeaders.Headers.Remove` | src/sip/message.rs:155-158 | exactly that name is gone |
| `SipHeaders.PrettyLoop` | src/sip/message.rs:107-120 | the capitalising loop |
| `SipHeaders.UnfoldLoop` | src/sip/message.rs:342-357 | the unfolding loop |
| `SipHeaders.SerializeLoop` | src/sip/message.rs:373-391 | the printer loop with its length flag |
| `SipHeaders.ReceiveMessage` | src/sip/message.rs:284-319 | the parser computes the parse, on any datagram |
| `Dns.NameReadBack` | src/mms/dns.rs:187-250 | for every host of labels of 1 to 63 bytes the built name is read back without trailing dots, and skipping lands on the query type if the host has at most 127 labels and fails otherwise |
| `Dns.EchoIsOurs` | src/mms/dns.rs:159-179 | the query with the response bit set is ours if and only if the host has at most 127 labels |
| `Dns.OnlyOurQuestionIsOurs` | src/mms/dns.rs:159-179 | a response that echoes some question is ours if and only if identifier, type and name (ignoring case and trailing dots) are those asked and the name has at most 127 labels |
| `Dns.RefusalEndsTheWait` | src/mms/dns.rs:168-179 | any response to our query without exactly one question ends the wait with its code, unless that is zero |
| `Dns.LongNamesAreNotOurs` | src/mms/dns.rs:187-220 | hosts of n one-letter labels can all be asked for, and are recognised in an answer if and only if n is at most 127 |
| `Dns.HostOf128Labels` | src/mms/dns.rs:187-220 | the host of 128 such labels, whose answer is not ours |
| `Dns.AnswerReadBack` | src/mms/dns.rs:252-306 | a successful response whose records have any owner names, compressed or not, gives all addresses of the asked type in order and the first readable alias |
| `Dns.AliasIsRead` | src/mms/dns.rs:252-306 | an alias written out in full is that name, if no alias comes before it |
| `Dns.CollectAnswer` | src/mms/dns.rs:252-306 | the record loops compute the parse, on any datagram |
| `Dns.QueryIsNotAnAnswer` | src/mms/dns.rs:159-167 | our own query is never taken for an answer |
| `Dns.PointerReads` | src/mms/dns.rs:223-240 | a compression pointer reads as the name it points at and skips two bytes (section 4.1.4 of RFC 1035) |
| `Dns.NameIsBounded` | src/mms/dns.rs:223-250 | reading a name ends on any bytes, and each hop adds at most one datagram to it |
| `Dns.NameLength` | src/mms/dns.rs:223-250 | a name read from any bytes is at most 17 datagrams long |
| `Dns.WriteQuery` | src/mms/dns.rs:187-205 | the builder loop, with its refusal of bad labels |
| `Dns.WalkName` | src/mms/dns.rs:208-220 | the skipping loop |
| `Dns.CollectName` | src/mms/dns.rs:223-250 | the reading loop, with its 16-hop bound as termination |
| `AudioRings.Conservation` | src/audio/alsa_io.rs:70-192 | in every run and every ring: accepted samples = delivered and dropped ones in arrival order, then the queue |
| `AudioRings.RunIsBounded` | src/audio/alsa_io.rs:86-92 | no ring is left above its high-water mark and no more than 64000 tone samples are queued |
| `AudioRings.Trimmed` | src/audio/alsa_io.rs:86-92 | all samples up to the high-water mark, above it exactly the newest target |
| `AudioRings.Popped` | src/audio/alsa_io.rs:96-112 | exactly n samples, the oldest first, then silence |
| `AudioRings.TonesAreUncut` | src/audio/alsa_io.rs:153-180 | the tone audio delivered is the uncut concatenation of the accepted tones |
| `AudioRings.NoOverrunNoLoss` | src/audio/alsa_io.rs:86-92 | with no overrun counted nothing was lost towards the network |
| `AudioRings.Rings.constructor` | src/audio/alsa_io.rs:73-77 | empty rings sized from jitter and period |
| `AudioRings.Rings.Trim` | src/audio/alsa_io.rs:86-92 | trims and counts |
| `AudioRings.Rings.DoPushFromCard` | src/audio/alsa_io.rs:135-139 | push and trim |
| `AudioRings.Rings.DoPushFromNetwork` | src/audio/alsa_io.rs:142-146 | push and trim |
| `AudioRings.Rings.DoQueueTone` | src/audio/alsa_io.rs:153-160 | all of the tone or none |
| `AudioRings.Rings.DoTakeForNetwork` | src/audio/alsa_io.rs:96-112 | pops n |
| `AudioRings.Rings.DoTakeForCard` | src/audio/alsa_io.rs:166-190 | a pending tone replaces, and discards, the far-end audio |
| `AudioRings.Rings.Pop` | src/audio/alsa_io.rs:99-103 | the popping loop |
| `Resampler.ChunksDoNotMatter` | src/audio/codec.rs:301-321 | however a stream is cut, the output is that of the whole stream, in closed form |
| `Resampler.ProcessExtends` | src/audio/codec.rs:301-321 | one call puts out exactly what its input adds |
| `Resampler.CountMeans` | src/audio/codec.rs:301-321 | after n inputs exactly ceil(n * to / from) samples are out: k is out if and only if k * from < n * to |
| `Resampler.PrefixOfReference` | src/audio/codec.rs:301-321 | later input never changes samples already out |
| `Resampler.OutputIsBetween` | src/audio/codec.rs:310-315 | every sample of the output stream lies between the two input samples around its position, so the clamp never acts |
| `Resampler.InPlace.Run` | src/audio/codec.rs:301-321 | the loop computes one chunk and the new state |
| `DtmfDebounce.ReportExactly` | src/media.rs:297-348 | a digit is reported if and only if it is heard for at least the third time in its stretch and is not the remembered one |
| `DtmfDebounce.ReportNeedsThreeHits` | src/media.rs:297-348 | behind a report are three visible hits with no other hit and no two misses in a row between them |
| `DtmfDebounce.ReportsAreSeparated` | src/media.rs:297-348 | two reports of one digit have another digit's report or two misses in a row between them |
| `DtmfDebounce.ThreeHitsAreReported` | src/media.rs:297-348 | three visible hits in a row have been reported by the last of them |
| `DtmfDebounce.ReportedWasHeard` | src/media.rs:315-337 | nothing is reported that was not heard in that very frame |
| `DtmfDebounce.MutedExactly` | src/media.rs:307-316 | a frame is muted if and only if a tone is pending in it or was in one of the 24 before, and then nothing is reported |
| `DtmfDebounce.HitsWithGapsAreReported` | src/media.rs:292-299 | single misses between the hits do not reset the count, unlike what the comment says of three consecutive frames |
| `DtmfDebounce.Detector.OnFrame` | src/media.rs:307-348 | one frame of the automaton |
| `DtmfDebounce.Detector.Listen` | src/media.rs:303-348 | the frame loop performs the run and reports as it says |
| `RtpPorts.BindPort` | src/media.rs:87-113 | only different ports are tried and, with the minimum below the maximum, each is even, in range and has its partner in range; a bound port was tried after busy ones only; giving up means every such port was busy, or there is none |
| `RtpPorts.WalkCovers` | src/media.rs:96-110 | the walk visits every slot exactly once from any random start |
| `RtpPorts.CandidatesAreThePairs` | src/media.rs:90-95 | below the top port the candidates are exactly the even ports of the range whose partner fits |
| `MmsStore.RetrievalIsExact` | src/mms/manager.rs:341-373 | from any earlier state a finished retrieval leaves exactly indices 1 to n with the non-SMIL parts in order, each row naming a file with its data |
| `MmsStore.StopAnywhere` | src/mms/manager.rs:341-373 | wherever a retrieval stops every row names an existing file of its own, no index is gone until all parts are stored, and the status is written last |
| `MmsStore.EveryCutIsAPoint` | src/mms/manager.rs:341-373 | every prefix of the effects is one of those points |
| `MmsStore.RemoveKeeps` | src/db.rs:318-338 | removing a pruned file touches no row that is kept and no new part |
| `MmsStore.AcknowledgedIsStored` | src/mms/manager.rs:260-319 | the acknowledge is posted only for a fit reply, after the status is received and the parts are exact |
| `MmsStore.OwedUntilStored` | src/mms/manager.rs:224-236 | a retrieval that stops early is retried on re-notification, a finished one never |
| `MmsStore.SanitizedStaysInside` | src/db.rs:521-531 | a stored name has no separator and is neither dot nor dot-dot |
| `MmsStore.PathsDiffer` | src/db.rs:521-531 | parts with different indices never share a file |
| `MmsStore.Db.AddAttachment` | src/db.rs:268-309 | file, then row; how far a failure came |
| `MmsStore.Db.PruneAttachments` | src/db.rs:318-338 | rows beyond the count, then their files |
| `MmsStore.Db.DoSetStatus` | src/db.rs:379-390 | the status of an existing message |
| `MmsStore.Db.StoreParts` | src/mms/manager.rs:350-370 | the part loop, skipping SMIL, with a failure anywhere |
| `MmsStore.Db.StoreRetrieved` | src/mms/manager.rs:341-373 | stops at some point of the program; finished, the parts are exact and the status is received; not finished, the status is unchanged |

## Left out

- D-Bus proxies, the modem watcher, ALSA threads, sockets, the HTTP server and client, configuration and the command line: their results are inputs of the model.
- SMS and SIP MESSAGE handling (src/gateway.rs:910-1031), the delivery of digits to the modem, call records, log output and the registrar.
- MD5 and random numbers: the nonce digest is any function, random choices are parameters.
- G.711 tables, the tone generator, the Goertzel detector, gain and the uplink energy counters.
- Addresses and contact targets in the call model; the Retry-After header; wrap-around of the 32-bit CSeq.
- Lock-level interleavings inside one packet or one timer tick.
- The resolver's retry over servers and its CNAME chase.
- Via parsing, Request::reply, body_text, SMIL and the other MMS encoders: they would only add easy members.
- MmsPdu.Decode: text in a character set other than UTF-8 is kept undecoded beside the name of its set, and UTF-8 text is its bytes; invalid UTF-8 (read lossily by the program) and byte order marks are not modelled.
- MmsRoundTrip.SendReqRoundTrip: white space is trimmed from addresses as ASCII white space only; lengths stay below 2^56, which is where the program's own uintvar stops being readable.
- MmsCoder.WriteSendReq: lengths are assumed to fit a machine word, as every vector does.
- SipMessage.FramingRoundTrip: a datagram is one string whose head characters and body bytes are its elements, so a head that is not UTF-8, which the program refuses, does not occur; header names are visible ASCII.
- SdpText.SdpRoundTrip: how an IP address is written and read is a pair of functions that invert each other.
- Dns.NameReadBack: labels are bytes; the lossy conversion of labels that are not UTF-8 is not modelled.
- Resampler.ChunksDoNotMatter: positions are exact rationals where the program uses 64-bit floats; both rates are positive.
- DtmfDebounce.ReportExactly: what the detector hears in a frame is an input.
- RtpPorts.BindPort: what the operating system says to each attempt is an input.
- MmsStore.Db.StoreRetrieved: subject, text and time stamp of the message row are not modelled; writing one file and one SQL statement are atomic.
- GatewayTheorems.EveryRequestIsAnswered: MESSAGE is not among the requests; the program answers it at once or later from a task of its own.
- GatewayExact.RepeatIsNeverAnswered: the transaction cache in front of the gateway, which answers retransmissions, is modelled on its own.
