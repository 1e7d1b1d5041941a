/**
 The call state machine of src/gateway.rs on values: the state, the outputs it
 emits, and one function per handler.  Everything that the outside world decides
 (D-Bus results, whether audio opens, which port was free) is a parameter.
 */
module GatewayModel {
  import opened Util
  import opened SdpModel

  type CallId = string
  type MmPath = string
  type Tag = string

  datatype Role = FromSip | ToSip

  datatype Method = Invite | Bye | Cancel | Info | Other

  /** A request we start ourselves is identified by its branch and sequence number. */
  datatype Tx = Tx(branch: nat, cseq: nat)

  /** The INVITE a call keeps: the one received (FromSip) or the latest one sent (ToSip). */
  datatype StoredInvite =
    | Received(rid: nat, seqNo: Option<nat>)
    | Sent(rid: nat, tx: Tx)

  /** A running media session: the port it took over and the telephone-event type it decodes. */
  datatype Media = Media(port: nat, codec: Codec, dtmfPt: Option<nat>)

  datatype ActiveCall = ActiveCall(
    role: Role,
    mmPath: Option<MmPath>,
    callId: CallId,
    localTag: Option<Tag>,
    remoteTag: Option<Tag>,
    localCseq: nat,
    invite: StoredInvite,
    media: Option<Media>,
    rtpSocket: Option<nat>,
    localRtpPort: nat,
    codec: Codec,
    remoteSdp: Option<Sdp>,
    mediaDtmfPt: Option<nat>,
    answered: bool,
    authRetried: bool,
    ringingSent: bool,
    earlyMedia: bool,
    responseTask: bool
  )

  datatype Cause = SipBye | SipCancel | SipRejected | RingTimedOut | TornDown

  /** Everything the gateway does to the outside, in the order it does it. */
  datatype Output =
    | Reply(rid: nat, verb: Method, code: nat)
    | ReplySdp(rid: nat, verb: Method, code: nat, callId: CallId, answer: Sdp, offer: Sdp, mediaPt: Option<nat>)
    | SendInvite(callId: CallId, tx: Tx)
    | SendFailureAck(callId: CallId, tx: Tx)
    | SendAck(callId: CallId, tx: Tx)
    | SendCancel(callId: CallId, tx: Tx)
    | SendBye(callId: CallId, tx: Tx)
    | SendInfo(callId: CallId, tx: Tx)
    | Dial(path: MmPath)
    | OfferLeg(path: MmPath)
    | Accept(callId: CallId, path: MmPath)
    | Hangup(path: MmPath)
    | DeleteCall(path: MmPath)
    | ModemGone
    | CallStarted(callId: CallId, role: Role, rid: nat, port: nat, codec: Codec)
    | MediaStarted(callId: CallId)
    | CallDropped(callId: CallId, role: Role, rid: nat, cause: Cause)

  /** The outputs so far; the newest one is `last`. */
  datatype Trace = Start | Then(before: Trace, last: Output)

  datatype Config = Config(earlyMedia: bool, dtmfPt: nat, hasCredentials: bool, advertised: nat, ptime: nat)

  datatype State = State(
    cfg: Config,
    running: bool,
    modem: bool,
    call: Option<ActiveCall>,
    cseq: nat,
    nextBranch: nat,
    nextRid: nat,
    trace: Trace
  )

  function Init(cfg: Config): State {
    State(cfg, true, false, None, 1, 0, 0, Start)
  }

  datatype Request = Request(
    callId: Option<CallId>,
    cseq: Option<nat>,
    toTag: Option<Tag>,
    fromTag: Option<Tag>,
    hasTo: bool,
    hasFrom: bool,
    number: string,
    sdp: Option<Sdp>
  )

  datatype Response = Response(code: nat, hasTo: bool, toTag: Option<Tag>, sdp: Option<Sdp>)

  datatype CallInfo = CallInfo(terminated: bool, incoming: bool)

  /** Outcome of everything `start_sip_call` does before the INVITE leaves. */
  datatype Setup = SetupFailed | SetupOk(callId: CallId, localTag: Tag, port: nat)

  datatype LegState = Alerting | Active | Terminated | OtherState

  datatype Reason = RefusedOrBusy | Failed | NormalEnd

  /** What the event loop receives; `OtherRequest` is a request of any other method but MESSAGE. */
  datatype Event =
    | ModemUp
    | ModemDown
    | CallAdded(path: MmPath, info: Option<CallInfo>, setup: Setup)
    | CallDeleted(path: MmPath)
    | CallState(path: MmPath, leg: LegState, reason: Reason, audioOk: bool)
    | ModemDtmf(path: MmPath)
    | InviteRequest(req: Request, bound: Option<nat>, dialled: Option<MmPath>, tag: Tag, audioOk: bool)
    | ByeRequest(req: Request)
    | CancelRequest(req: Request)
    | InfoRequest(req: Request, digits: Option<string>, delivered: bool)
    | AckRequest
    | OtherRequest
    | Progress(callId: CallId)
    | Answered(callId: CallId, resp: Response, audioOk: bool, acceptOk: bool)
    | Rejected(callId: CallId, resp: Response, answerable: bool)
    | RingTimeout(callId: CallId)
    | EarlyAudio(callId: CallId, audioOk: bool)
    | DtmfFromModem(callId: CallId)
    | Watchdog(audioFailed: bool, silent: bool)
    | Shutdown

  // ------------------------------------------------------------------ helpers

  function Emit(s: State, o: Output): State {
    s.(trace := Then(s.trace, o))
  }

  function SetCall(s: State, c: ActiveCall): State {
    s.(call := Some(c))
  }

  predicate CallIdMatches(s: State, id: CallId) {
    s.call.Some? && s.call.value.callId == id
  }

  predicate OwnsLeg(s: State, path: MmPath) {
    s.call.Some? && s.call.value.mmPath == Some(path)
  }

  /** Call-ID and both tags; a tag we do not know yet is not compared. */
  predicate InDialogOf(c: ActiveCall, req: Request) {
    && req.callId == Some(c.callId)
    && (c.localTag.Some? ==> req.toTag == c.localTag)
    && (c.remoteTag.Some? ==> req.fromTag == c.remoteTag)
  }

  predicate InDialog(s: State, req: Request) {
    s.call.Some? && InDialogOf(s.call.value, req)
  }

  function HangupLeg(s: State): State {
    if s.modem && s.call.Some? && s.call.value.mmPath.Some?
    then Emit(s, Hangup(s.call.value.mmPath.value))
    else s
  }

  function FinishCall(s: State, cause: Cause): State {
    if s.call.None? then s
    else
      var c := s.call.value;
      Emit(s, CallDropped(c.callId, c.role, c.invite.rid, cause)).(call := None)
  }

  /** Number and branch a new in-dialog request takes. */
  function FreshTx(s: State): Tx {
    Tx(s.nextBranch, s.cseq)
  }

  function TakeTx(s: State): State {
    s.(nextBranch := s.nextBranch + 1, cseq := s.cseq + 1)
  }

  function SendProvisional(s: State, code: nat): State {
    if s.call.None? then s
    else
      var c := s.call.value;
      Emit(SetCall(s, c.(ringingSent := c.ringingSent || code == 180)), Reply(c.invite.rid, Invite, code))
  }

  function SendDtmfInfo(s: State): State {
    if s.call.None? then s
    else Emit(TakeTx(s), SendInfo(s.call.value.callId, FreshTx(s)))
  }

  function CancelOutgoingInvite(s: State): State {
    if s.call.None? then s
    else
      var c := s.call.value;
      if c.role != ToSip || c.answered || c.invite.Received? then s
      else Emit(s, SendCancel(c.callId, Tx(c.invite.tx.branch, c.localCseq)))
  }

  /** Tell the SIP side the call is over: BYE, a failure response, or CANCEL. */
  function InformPeer(s: State, code: nat): State {
    if s.call.None? then s
    else
      var c := s.call.value;
      if c.answered then Emit(TakeTx(s), SendBye(c.callId, FreshTx(s)))
      else
        match c.role
        case FromSip => Emit(s, Reply(c.invite.rid, Invite, if code < 400 then 480 else code))
        case ToSip => CancelOutgoingInvite(s)
  }

  function TeardownCall(s: State, code: nat): State {
    FinishCall(HangupLeg(InformPeer(s, code)), TornDown)
  }

  // -------------------------------------------------------------------- media

  datatype Outcome = Outcome(ok: bool, s: State)

  function StartMedia(s: State, codec: Codec, audioOk: bool): Outcome {
    if !s.modem || !audioOk || s.call.None? || s.call.value.rtpSocket.None? then Outcome(false, s)
    else
      var c := s.call.value;
      var pt := if c.remoteSdp.Some? then c.remoteSdp.value.telephoneEvent else None;
      var c' := c.(rtpSocket := None, mediaDtmfPt := pt,
                   media := Some(Media(c.rtpSocket.value, codec, pt)));
      Outcome(true, Emit(SetCall(s, c'), MediaStarted(c.callId)))
  }

  function RespondWithMedia(s: State, code: nat, audioOk: bool): Outcome {
    if s.call.None? then Outcome(true, s)
    else
      var c := s.call.value;
      if c.remoteSdp.None? then Outcome(false, s)
      else
        var started := if c.media.Some? then Outcome(true, s) else StartMedia(s, c.codec, audioOk);
        if !started.ok || started.s.call.None? then Outcome(false, started.s)
        else
          var d := started.s.call.value;
          var offer := c.remoteSdp.value;
          var answer := SdpModel.Answer(offer, s.cfg.advertised, d.localRtpPort, c.codec, Some(s.cfg.dtmfPt), s.cfg.ptime);
          var pt := if d.media.Some? then d.media.value.dtmfPt else None;
          Outcome(true, Emit(started.s, ReplySdp(d.invite.rid, Invite, code, d.callId, answer, offer, pt)))
  }

  function StartEarlyMedia(s: State, audioOk: bool): Outcome {
    if s.call.None? then Outcome(true, s)
    else
      var c := s.call.value;
      if c.media.None? && c.remoteSdp.None? then Outcome(false, s)
      else
        var up := if c.media.Some? then Outcome(true, s) else StartMedia(s, c.codec, audioOk);
        if !up.ok then up else Outcome(true, SendProvisional(up.s, 180))
  }

  function UpgradeToEarlyMedia(s: State, audioOk: bool): State {
    if s.call.None? || s.call.value.earlyMedia || s.call.value.answered then s
    else
      var r := RespondWithMedia(s, 183, audioOk);
      if !r.ok || r.s.call.None? then r.s
      else SetCall(r.s, r.s.call.value.(earlyMedia := true))
  }

  // --------------------------------------------------------------- modem side

  function OnModemDown(s: State): State {
    TeardownCall(Emit(s.(modem := false), ModemGone), 503)
  }

  function OnCallAdded(s: State, path: MmPath, info: Option<CallInfo>, setup: Setup): State {
    if !s.modem || OwnsLeg(s, path) || info.None? then s
    else if info.value.terminated then Emit(s, DeleteCall(path))
    else if !info.value.incoming || s.call.Some? then Emit(s, Hangup(path))
    else StartSipCall(Emit(s, OfferLeg(path)), path, setup)
  }

  function StartSipCall(s: State, path: MmPath, setup: Setup): State {
    match setup
    case SetupFailed => Emit(s, Hangup(path))
    case SetupOk(callId, localTag, port) =>
      var tx := FreshTx(s);
      var s1 := TakeTx(s).(nextRid := s.nextRid + 1);
      var s2 := Emit(Emit(s1, CallStarted(callId, ToSip, s.nextRid, port, Pcmu)), SendInvite(callId, tx));
      SetCall(s2, ActiveCall(ToSip, Some(path), callId, Some(localTag), None, tx.cseq, Sent(s.nextRid, tx),
                             None, Some(port), port, Pcmu, None, None, false, false, false, false, true))
  }

  function OnCallState(s: State, path: MmPath, leg: LegState, reason: Reason, audioOk: bool): State {
    if !OwnsLeg(s, path) then s
    else
      var c := s.call.value;
      match leg
      case Alerting =>
        if c.role == FromSip && !c.ringingSent then
          if s.cfg.earlyMedia then
            var r := StartEarlyMedia(s, audioOk);
            if r.ok then r.s else SendProvisional(r.s, 180)
          else SendProvisional(s, 180)
        else s
      case Active => if c.answered then s else OnModemAnswered(s, audioOk)
      case Terminated =>
        TeardownCall(s, match reason
                        case RefusedOrBusy => 486
                        case Failed => 500
                        case NormalEnd => if c.answered then 200 else 480)
      case OtherState => s
  }

  function OnModemAnswered(s: State, audioOk: bool): State {
    if s.call.None? then s
    else if s.call.value.role == FromSip then
      var r := RespondWithMedia(s, 200, audioOk);
      if !r.ok then TeardownCall(r.s, 500)
      else if r.s.call.None? then r.s
      else SetCall(r.s, r.s.call.value.(answered := true))
    else SetCall(s, s.call.value.(answered := true))
  }

  // ----------------------------------------------------------------- SIP side

  function OnInvite(s0: State, req: Request, bound: Option<nat>, dialled: Option<MmPath>, tag: Tag, audioOk: bool): State {
    var rid := s0.nextRid;
    var s := s0.(nextRid := rid + 1);
    if s.call.None? then OnNewInvite(s, rid, req, bound, dialled, tag)
    else if req.callId == Some(s.call.value.callId) then OnRepeatedInvite(s, rid, req, audioOk)
    else Emit(s, Reply(rid, Invite, 486))
  }

  /** Why an INVITE that finds the gateway idle is refused, or the codec it negotiated. */
  datatype Screening = Refuse(code: nat) | Take(codec: Codec)

  function Screen(modem: bool, req: Request): Screening {
    if !modem then Refuse(503)
    else if req.number == [] then Refuse(484)
    else if req.sdp.None? then Refuse(488)
    else
      match Negotiate(req.sdp.value.payloadTypes)
      case None => Refuse(488)
      case Some(codec) =>
        if !HasMedia(req.sdp.value) then Refuse(488)
        else if !req.hasTo || !req.hasFrom || req.callId.None? then Refuse(400)
        else Take(codec)
  }

  function OnNewInvite(s: State, rid: nat, req: Request, bound: Option<nat>, dialled: Option<MmPath>, tag: Tag): State {
    match Screen(s.modem, req)
    case Refuse(code) => Emit(s, Reply(rid, Invite, code))
    case Take(codec) => PlaceCall(Emit(s, Reply(rid, Invite, 100)), rid, req, codec, bound, dialled, tag)
  }

  /** An INVITE with the Call-ID of the current call: a retransmission until it is answered, a re-INVITE after. */
  function OnRepeatedInvite(s: State, rid: nat, req: Request, audioOk: bool): State
    requires s.call.Some?
  {
    if s.call.value.answered then OnReinvite(s, rid, req)
    else if s.call.value.earlyMedia then RespondWithMedia(s, 183, audioOk).s
    else SendProvisional(s, 180)
  }

  function PlaceCall(s: State, rid: nat, req: Request, codec: Codec, bound: Option<nat>, dialled: Option<MmPath>, tag: Tag): State
    requires req.callId.Some?
  {
    if bound.None? then Emit(s, Reply(rid, Invite, 500))
    else if dialled.None? then Emit(s, Reply(rid, Invite, 503))
    else
      var s1 := Emit(Emit(s, Dial(dialled.value)), CallStarted(req.callId.value, FromSip, rid, bound.value, codec));
      SetCall(s1.(cseq := s.cseq + 1),
              ActiveCall(FromSip, dialled, req.callId.value, Some(tag), req.fromTag, s.cseq, Received(rid, req.cseq),
                         None, bound, bound.value, codec, req.sdp, None, false, false, false, false, false))
  }

  /** The SDP a re-INVITE is answered from: its own when it has media, the stored one otherwise. */
  function ReinviteOffer(req: Request): Option<Sdp> {
    if req.sdp.Some? && HasMedia(req.sdp.value) then req.sdp else None
  }

  function StoredSeqNo(c: ActiveCall): Option<nat> {
    match c.invite
    case Received(_, n) => n
    case Sent(_, tx) => Some(tx.cseq)
  }

  function OnReinvite(s: State, rid: nat, req: Request): State
    requires s.call.Some?
  {
    var c := s.call.value;
    if !c.answered || (c.role == FromSip && OptionLe(req.cseq, StoredSeqNo(c))) then Emit(s, Reply(rid, Invite, 491))
    else if !InDialogOf(c, req) then Emit(s, Reply(rid, Invite, 481))
    else
      var offer := ReinviteOffer(req);
      if offer.Some? && PayloadType(c.codec) !in offer.value.payloadTypes then Emit(s, Reply(rid, Invite, 488))
      else AnswerReinvite(s, rid, offer)
  }

  /** Answer from the new offer, or from the stored SDP when there is none, and remember the offer. */
  function AnswerReinvite(s: State, rid: nat, offer: Option<Sdp>): State
    requires s.call.Some?
  {
    var c := s.call.value;
    var base := if offer.Some? then offer else c.remoteSdp;
    var s1 := if offer.Some? then SetCall(s, c.(remoteSdp := offer)) else s;
    if base.None? then Emit(s1, Reply(rid, Invite, 200))
    else
      Emit(s1, ReplySdp(rid, Invite, 200, c.callId, ReinviteAnswer(s, base.value), base.value,
                        if c.media.Some? then c.media.value.dtmfPt else None))
  }

  function ReinviteAnswer(s: State, base: Sdp): Sdp
    requires s.call.Some?
  {
    var c := s.call.value;
    var pt := if c.mediaDtmfPt.Some? && base.telephoneEvent == c.mediaDtmfPt then c.mediaDtmfPt else None;
    SdpModel.Answer(base, s.cfg.advertised, c.localRtpPort, c.codec, pt, s.cfg.ptime)
  }

  function OnBye(s0: State, req: Request): State {
    var s := s0.(nextRid := s0.nextRid + 1);
    var s1 := Emit(s, Reply(s0.nextRid, Bye, if InDialog(s, req) then 200 else 481));
    if InDialog(s, req) then FinishCall(HangupLeg(s1), SipBye) else s1
  }

  predicate CancelMatches(s: State, req: Request) {
    && s.call.Some?
    && s.call.value.role == FromSip
    && !s.call.value.answered
    && req.callId == Some(s.call.value.callId)
    && req.cseq == StoredSeqNo(s.call.value)
  }

  function OnCancel(s0: State, req: Request): State {
    var s := Emit(s0.(nextRid := s0.nextRid + 1), Reply(s0.nextRid, Cancel, 200));
    if CancelMatches(s, req)
    then FinishCall(HangupLeg(Emit(s, Reply(s.call.value.invite.rid, Invite, 487))), SipCancel)
    else s
  }

  function OnOther(s0: State, verb: Method, code: nat): State {
    Emit(s0.(nextRid := s0.nextRid + 1), Reply(s0.nextRid, verb, code))
  }

  /** Digits are only taken from the dialog that owns the current leg. */
  function InfoCode(s: State, req: Request, digits: Option<string>, delivered: bool): nat {
    match digits
    case None => 415
    case Some(d) =>
      if d == [] then 200
      else if !InDialog(s, req) || s.call.value.mmPath.None? then 481
      else if delivered then 200 else 500
  }

  // ---------------------------------------------------------- internal events

  function AckFailure(s: State): State {
    if s.call.None? || s.call.value.role != ToSip || s.call.value.invite.Received? then s
    else
      var c := s.call.value;
      Emit(s, SendFailureAck(c.callId, Tx(c.invite.tx.branch, c.localCseq)))
  }

  /** Can the digest challenge in `resp` be answered with a second INVITE? */
  predicate MayRetry(s: State, resp: Response, answerable: bool) {
    && (resp.code == 401 || resp.code == 407)
    && s.call.Some?
    && s.call.value.role == ToSip
    && !s.call.value.answered
    && !s.call.value.authRetried
    && s.cfg.hasCredentials
    && answerable
  }

  function RetryInvite(s: State): State
    requires s.call.Some?
  {
    var c := s.call.value;
    var tx := FreshTx(s);
    SetCall(Emit(TakeTx(s), SendInvite(c.callId, tx)),
            c.(authRetried := true, localCseq := tx.cseq, invite := Sent(c.invite.rid, tx), responseTask := true))
  }

  function OnRejected(s0: State, id: CallId, resp: Response, answerable: bool): State {
    if !CallIdMatches(s0, id) then s0
    else
      var s := AckFailure(TaskEnded(s0));
      if MayRetry(s, resp, answerable) then RetryInvite(s)
      else FinishCall(HangupLeg(s), SipRejected)
  }

  /** The response task of the call has delivered its one terminal event. */
  function TaskEnded(s: State): State
    requires s.call.Some?
  {
    SetCall(s, s.call.value.(responseTask := false))
  }

  function OnRingTimeout(s0: State, id: CallId): State {
    if !CallIdMatches(s0, id) then s0
    else FinishCall(HangupLeg(CancelOutgoingInvite(TaskEnded(s0))), RingTimedOut)
  }

  /** Learn the remote tag, send the ACK, and count the dialog as established from then on. */
  function AckAnswer(s: State, resp: Response): State
    requires s.call.Some?
  {
    var c := s.call.value;
    SetCall(Emit(s.(nextBranch := s.nextBranch + 1), SendAck(c.callId, Tx(s.nextBranch, c.localCseq))),
            c.(remoteTag := if resp.hasTo then resp.toTag else c.remoteTag, answered := true))
  }

  function OnAnswered(s0: State, id: CallId, resp: Response, audioOk: bool, acceptOk: bool): State {
    if !CallIdMatches(s0, id) then s0
    else
      var s := AckAnswer(TaskEnded(s0), resp);
      if resp.sdp.None? || !HasMedia(resp.sdp.value) then TeardownCall(s, 200)
      else
        var n := Negotiate(resp.sdp.value.payloadTypes);
        var codec := if n.Some? then n.value else Pcmu;
        ConnectLeg(SetCall(s, s.call.value.(codec := codec, remoteSdp := resp.sdp)), codec, audioOk, acceptOk)
  }

  function ConnectLeg(s: State, codec: Codec, audioOk: bool, acceptOk: bool): State {
    var r := StartMedia(s, codec, audioOk);
    if !r.ok then TeardownCall(r.s, 500)
    else if r.s.modem && r.s.call.Some? && r.s.call.value.mmPath.Some? then
      var s1 := Emit(r.s, Accept(r.s.call.value.callId, r.s.call.value.mmPath.value));
      if acceptOk then s1 else TeardownCall(s1, 500)
    else r.s
  }

  function CheckMedia(s: State, audioFailed: bool, silent: bool): State {
    if s.call.None? || s.call.value.media.None? then s
    else if audioFailed then TeardownCall(s, 200)
    else
      var c := s.call.value;
      var peerSends := c.remoteSdp.None? || PeerSends(c.remoteSdp.value.direction);
      if peerSends && silent then TeardownCall(s, 200) else s
  }

  /** One turn of the event loop. */
  function Step(s: State, ev: Event): State {
    if !s.running then s
    else
      match ev
      case ModemUp => s.(modem := true)
      case ModemDown => OnModemDown(s)
      case CallAdded(path, info, setup) => OnCallAdded(s, path, info, setup)
      case CallDeleted(path) => if OwnsLeg(s, path) then TeardownCall(s, 200) else s
      case CallState(path, leg, reason, audioOk) => OnCallState(s, path, leg, reason, audioOk)
      case ModemDtmf(path) => if OwnsLeg(s, path) then SendDtmfInfo(s) else s
      case InviteRequest(req, bound, dialled, tag, audioOk) => OnInvite(s, req, bound, dialled, tag, audioOk)
      case ByeRequest(req) => OnBye(s, req)
      case CancelRequest(req) => OnCancel(s, req)
      case InfoRequest(req, digits, delivered) => OnOther(s, Info, InfoCode(s, req, digits, delivered))
      case AckRequest => s
      case OtherRequest => OnOther(s, Other, 405)
      case Progress(_) => s
      case Answered(id, resp, audioOk, acceptOk) => OnAnswered(s, id, resp, audioOk, acceptOk)
      case Rejected(id, resp, answerable) => OnRejected(s, id, resp, answerable)
      case RingTimeout(id) => OnRingTimeout(s, id)
      case EarlyAudio(id, audioOk) => if CallIdMatches(s, id) then UpgradeToEarlyMedia(s, audioOk) else s
      case DtmfFromModem(id) => if CallIdMatches(s, id) then SendDtmfInfo(s) else s
      case Watchdog(audioFailed, silent) => CheckMedia(s, audioFailed, silent)
      case Shutdown => TeardownCall(s, 200).(running := false)
  }

  function Run(s: State, evs: seq<Event>): State {
    if evs == [] then s else Step(Run(s, evs[..|evs| - 1]), evs[|evs| - 1])
  }
}
