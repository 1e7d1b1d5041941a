/**
 Whole-run safety of the call state machine.  `History` is what an observer knows
 after a prefix of the trace, `Permitted` judges the next output against it, and
 `Inv` ties the gateway's flags to that history.
 */
module GatewaySafety {
  import opened Util
  import opened SdpModel
  import opened GatewayModel

  // ------------------------------------------------------- what was observed

  datatype Started = Started(role: Role, rid: nat, port: nat, codec: Codec)

  datatype Dialog = Dialog(
    invites: seq<Tx>, acked: bool, mediaUp: bool, accepted: bool, ended: bool, cancelled: bool)

  datatype History = History(
    openLegs: set<MmPath>,
    finals: map<nat, seq<nat>>,
    started: map<CallId, Started>,
    dialogs: map<CallId, Dialog>,
    branches: set<nat>,
    lastCseq: nat
  )

  function DialogOf(h: History, id: CallId): Dialog {
    if id in h.dialogs then h.dialogs[id] else Dialog([], false, false, false, false, false)
  }

  function FinalsOf(h: History, rid: nat): seq<nat> {
    if rid in h.finals then h.finals[rid] else []
  }

  function Final(h: History, rid: nat, code: nat): History {
    if code < 200 then h else h.(finals := h.finals[rid := FinalsOf(h, rid) + [code]])
  }

  function SetDialog(h: History, id: CallId, d: Dialog): History {
    h.(dialogs := h.dialogs[id := d])
  }

  function Numbered(h: History, tx: Tx): History {
    h.(branches := h.branches + {tx.branch}, lastCseq := tx.cseq)
  }

  function Record(h: History, o: Output): History {
    match o
    case Reply(rid, _, code) => Final(h, rid, code)
    case ReplySdp(rid, _, code, _, _, _, _) => Final(h, rid, code)
    case SendInvite(id, tx) => Numbered(SetDialog(h, id, DialogOf(h, id).(invites := DialogOf(h, id).invites + [tx])), tx)
    case SendFailureAck(_, _) => h
    case SendAck(id, tx) => SetDialog(h, id, DialogOf(h, id).(acked := true)).(branches := h.branches + {tx.branch})
    case SendCancel(id, _) => SetDialog(h, id, DialogOf(h, id).(cancelled := true))
    case SendBye(id, tx) => Numbered(SetDialog(h, id, DialogOf(h, id).(ended := true)), tx)
    case SendInfo(_, tx) => Numbered(h, tx)
    case Dial(p) => h.(openLegs := h.openLegs + {p})
    case OfferLeg(p) => h.(openLegs := h.openLegs + {p})
    case Accept(id, _) => SetDialog(h, id, DialogOf(h, id).(accepted := true))
    case Hangup(p) => h.(openLegs := h.openLegs - {p})
    case DeleteCall(_) => h
    case ModemGone => h.(openLegs := {})
    case CallStarted(id, role, rid, port, codec) => h.(started := h.started[id := Started(role, rid, port, codec)])
    case MediaStarted(id) => SetDialog(h, id, DialogOf(h, id).(mediaUp := true))
    case CallDropped(_, _, _, _) => h
  }

  function Hist(trace: Trace): History {
    match trace
    case Start => History({}, map[], map[], map[], {}, 0)
    case Then(before, o) => Record(Hist(before), o)
  }

  // --------------------------------------------------------- what is permitted

  predicate Fresh(h: History, tx: Tx) {
    tx.branch !in h.branches && h.lastCseq < tx.cseq
  }

  predicate IsLatestInvite(d: Dialog, tx: Tx) {
    d.invites != [] && d.invites[|d.invites| - 1] == tx
  }

  /** Is `o` allowed as the next output, given everything sent before it? */
  ghost predicate Permitted(h: History, o: Output) {
    match o
    case Reply(rid, verb, code) =>
      && (code >= 200 ==> FinalsOf(h, rid) == [])
      && (verb == Invite ==> code < 200 || code >= 400)
    case ReplySdp(rid, verb, code, id, answer, offer, mediaPt) =>
      && verb == Invite
      && (code >= 200 ==> FinalsOf(h, rid) == [])
      && id in h.started
      && DialogOf(h, id).mediaUp
      && answer.port == h.started[id].port
      && (answer.telephoneEvent.Some? ==> answer.telephoneEvent == mediaPt)
      && (h.started[id].role == FromSip ==>
            answer.payloadTypes == [PayloadType(h.started[id].codec)] && Conforms(answer, offer))
    case SendInvite(id, tx) =>
      var d := DialogOf(h, id);
      && id in h.started && h.started[id].role == ToSip
      && |d.invites| <= 1 && !d.acked && !d.cancelled && Fresh(h, tx)
    case SendFailureAck(id, tx) => IsLatestInvite(DialogOf(h, id), tx) && !DialogOf(h, id).acked
    case SendAck(id, tx) =>
      var d := DialogOf(h, id);
      && d.invites != [] && tx.cseq == d.invites[|d.invites| - 1].cseq
      && tx.branch !in h.branches && !d.acked && !d.cancelled
    case SendCancel(id, tx) =>
      IsLatestInvite(DialogOf(h, id), tx) && !DialogOf(h, id).acked && !DialogOf(h, id).cancelled
    case SendBye(id, tx) =>
      && id in h.started && !DialogOf(h, id).ended && Fresh(h, tx)
      && (h.started[id].role == ToSip ==> DialogOf(h, id).acked)
      && (h.started[id].role == FromSip ==> FinalsOf(h, h.started[id].rid) == [200])
    case SendInfo(_, tx) => Fresh(h, tx)
    case Dial(_) => h.openLegs == {}
    case OfferLeg(_) => h.openLegs == {}
    case Accept(id, p) =>
      var d := DialogOf(h, id);
      d.acked && d.mediaUp && !d.accepted && p in h.openLegs
    case CallStarted(id, _, _, _, _) => id !in h.started
    case MediaStarted(id) => !DialogOf(h, id).mediaUp
    case CallDropped(id, role, rid, cause) =>
      var d := DialogOf(h, id);
      && id in h.started && h.started[id].role == role && h.started[id].rid == rid
      && (role == FromSip ==> DroppedUas(FinalsOf(h, rid), d.ended, cause))
      && (role == ToSip ==> if d.acked then d.ended || cause == SipBye
                            else d.cancelled || cause == SipBye || cause == SipRejected)
    case _ => true
  }

  /** How a call we received may end: one final response, and a BYE one way or the other if that was a 2xx. */
  predicate DroppedUas(finals: seq<nat>, ended: bool, cause: Cause) {
    || (finals == [] && cause == SipBye)
    || (finals == [200] && (ended || cause == SipBye))
    || (|finals| == 1 && finals[0] >= 400)
  }

  ghost predicate Lawful(trace: Trace) {
    match trace
    case Start => true
    case Then(before, o) => Lawful(before) && Permitted(Hist(before), o)
  }

  // ------------------------------------------------------------- the invariant

  function Live(call: Option<ActiveCall>): set<MmPath> {
    if call.Some? && call.value.mmPath.Some? then {call.value.mmPath.value} else {}
  }

  ghost predicate FreshSupply(s: State, h: History) {
    && h.lastCseq < s.cseq
    && (forall b <- h.branches :: b < s.nextBranch)
    && (forall r <- h.finals :: r < s.nextRid)
    && h.dialogs.Keys <= h.started.Keys
  }

  /** Enough to tear the call down from any point of a handler. */
  ghost predicate Teardownable(s: State, h: History, c: ActiveCall) {
    var d := DialogOf(h, c.callId);
    && c.mmPath.Some?
    && c.callId in h.started
    && h.started[c.callId].role == c.role
    && h.started[c.callId].rid == c.invite.rid
    && c.invite.rid < s.nextRid
    && !d.ended && !d.cancelled
    && (c.role == FromSip ==> c.invite.Received? && FinalsOf(h, c.invite.rid) == if c.answered then [200] else [])
    && (c.role == ToSip ==> c.invite.Sent? && IsLatestInvite(d, Tx(c.invite.tx.branch, c.localCseq)) && d.acked == c.answered)
  }

  /** Exactly one of the socket and the media session holds the port bound at setup. */
  predicate OnePortOwner(c: ActiveCall) {
    && (c.media.Some? <==> c.rtpSocket.None?)
    && (c.rtpSocket.Some? ==> c.rtpSocket.value == c.localRtpPort)
    && (c.media.Some? ==> c.media.value.port == c.localRtpPort && c.media.value.dtmfPt == c.mediaDtmfPt)
  }

  ghost predicate CallInv(s: State, h: History, c: ActiveCall) {
    var d := DialogOf(h, c.callId);
    && Teardownable(s, h, c)
    && h.started[c.callId].port == c.localRtpPort
    && OnePortOwner(c)
    && d.mediaUp == c.media.Some?
    && (c.answered ==> c.media.Some? && c.remoteSdp.Some?)
    && (c.role == FromSip ==> UasInv(h, c))
    && (c.role == ToSip ==> UacInv(h, c, d))
  }

  ghost predicate UasInv(h: History, c: ActiveCall)
    requires c.callId in h.started
  {
    && c.remoteSdp.Some? && HasMedia(c.remoteSdp.value)
    && c.codec == h.started[c.callId].codec
    && PayloadType(c.codec) in c.remoteSdp.value.payloadTypes
    && (c.media.Some? && !c.answered ==> c.mediaDtmfPt == c.remoteSdp.value.telephoneEvent)
  }

  ghost predicate UacInv(h: History, c: ActiveCall, d: Dialog) {
    && |d.invites| == (if c.authRetried then 2 else 1)
    && FinalsOf(h, c.invite.rid) == []
    && !c.earlyMedia
    && (c.responseTask ==> !c.answered)
    && (!c.answered ==> c.media.None? && !d.accepted)
  }

  ghost predicate Quiet(s: State, h: History) {
    && Lawful(s.trace)
    && FreshSupply(s, h)
  }

  ghost predicate Inv(s: State) {
    var h := Hist(s.trace);
    && Quiet(s, h)
    && h.openLegs == Live(s.call)
    && (s.call.Some? ==> s.modem && CallInv(s, h, s.call.value))
  }

  // ------------------------------------------------- what the environment keeps

  /**
   Call-IDs of different calls differ; the modem reports an incoming leg active only
   after Accept; a response task delivers one terminal event, and only for a call we placed.
   */
  ghost predicate EnvOk(s: State, ev: Event) {
    var h := Hist(s.trace);
    match ev
    case CallAdded(_, _, SetupOk(id, _, _)) => id !in h.started
    case InviteRequest(req, _, _, _, _) => s.call.None? && req.callId.Some? ==> req.callId.value !in h.started
    case CallState(p, Active, _, _) =>
      OwnsLeg(s, p) && s.call.value.role == ToSip ==> DialogOf(h, s.call.value.callId).accepted
    case Answered(id, _, _, _) => PlacedAndPending(s, h, id)
    case Rejected(id, _, _) => PlacedAndPending(s, h, id)
    case RingTimeout(id) => PlacedAndPending(s, h, id)
    case EarlyAudio(id, _) => id in h.started && h.started[id].role == FromSip
    case _ => true
  }

  ghost predicate PlacedAndPending(s: State, h: History, id: CallId) {
    id in h.started && h.started[id].role == ToSip && (CallIdMatches(s, id) ==> s.call.value.responseTask)
  }

  ghost predicate EnvRun(s: State, evs: seq<Event>) {
    evs == [] || (EnvRun(s, evs[..|evs| - 1]) && EnvOk(Run(s, evs[..|evs| - 1]), evs[|evs| - 1]))
  }

  // ----------------------------------------------------- ending a call keeps it

  ghost predicate LegsOk(s: State) {
    Hist(s.trace).openLegs == if s.modem then Live(s.call) else {}
  }

  ghost predicate MayDrop(s: State, cause: Cause)
    requires s.call.Some?
  {
    var c := s.call.value;
    Permitted(Hist(s.trace), CallDropped(c.callId, c.role, c.invite.rid, cause))
  }

  ghost predicate Idle(s: State) {
    s.call.None? && Quiet(s, Hist(s.trace)) && Hist(s.trace).openLegs == {}
  }

  /** The SIP side has been told: only the leg and the bookkeeping are left. */
  ghost predicate Informed(s: State, i: State, cause: Cause)
    requires s.call.Some?
  {
    && i.call == s.call && i.modem == s.modem && LegsOk(i)
    && Quiet(i, Hist(i.trace)) && MayDrop(i, cause)
  }

  lemma InformByBye(s: State)
    requires s.call.Some? && s.call.value.answered && LegsOk(s)
    requires Quiet(s, Hist(s.trace)) && Teardownable(s, Hist(s.trace), s.call.value)
    ensures Informed(s, Emit(TakeTx(s), SendBye(s.call.value.callId, FreshTx(s))), TornDown)
  {
  }

  lemma InformByFailure(s: State, code: nat)
    requires s.call.Some? && !s.call.value.answered && s.call.value.role == FromSip && LegsOk(s) && code >= 400
    requires Quiet(s, Hist(s.trace)) && Teardownable(s, Hist(s.trace), s.call.value)
    ensures Informed(s, Emit(s, Reply(s.call.value.invite.rid, Invite, code)), TornDown)
    ensures Informed(s, Emit(s, Reply(s.call.value.invite.rid, Invite, code)), SipCancel)
  {
  }

  lemma InformByCancel(s: State)
    requires s.call.Some? && !s.call.value.answered && s.call.value.role == ToSip && LegsOk(s)
    requires Quiet(s, Hist(s.trace)) && Teardownable(s, Hist(s.trace), s.call.value)
    ensures Informed(s, CancelOutgoingInvite(s), TornDown)
    ensures Informed(s, CancelOutgoingInvite(s), RingTimedOut)
  {
  }

  lemma FinishKeeps(s: State, cause: Cause)
    requires s.call.Some? && s.call.value.mmPath.Some? && LegsOk(s)
    requires Quiet(s, Hist(s.trace)) && MayDrop(s, cause)
    ensures Idle(FinishCall(HangupLeg(s), cause))
  {
  }

  lemma TeardownKeeps(s: State, code: nat)
    requires s.call.Some? && LegsOk(s)
    requires Quiet(s, Hist(s.trace)) && Teardownable(s, Hist(s.trace), s.call.value)
    ensures Idle(TeardownCall(s, code))
  {
    var c := s.call.value;
    if c.answered {
      InformByBye(s);
    } else if c.role == FromSip {
      InformByFailure(s, if code < 400 then 480 else code);
    } else {
      InformByCancel(s);
    }
    FinishKeeps(InformPeer(s, code), TornDown);
  }

  /** Teardown of whatever call there is. */
  lemma TeardownEnds(s: State, code: nat)
    requires Inv(s)
    ensures Inv(TeardownCall(s, code)) && Inv(TeardownCall(s, code).(running := false))
  {
    if s.call.Some? {
      hide TeardownCall;
      TeardownKeeps(s, code);
    }
  }

  lemma EmitLawful(s: State, o: Output)
    requires Lawful(s.trace) && Permitted(Hist(s.trace), o)
    ensures Lawful(Emit(s, o).trace) && Hist(Emit(s, o).trace) == Record(Hist(s.trace), o)
  {
  }

  lemma DownKeeps(s: State)
    requires Inv(s)
    ensures Inv(OnModemDown(s))
  {
    var s1 := Emit(s.(modem := false), ModemGone);
    if s.call.Some? {
      TeardownKeeps(s1, 503);
    }
  }

  // ----------------------------------------------------------- replies keep it

  /** A request that arrives and is answered on the spot leaves the call alone. */
  lemma NewReplyKeeps(s: State, verb: Method, code: nat)
    requires Inv(s) && (verb == Invite ==> code < 200 || code >= 400)
    ensures Inv(OnOther(s, verb, code))
    ensures FinalsOf(Hist(OnOther(s, verb, code).trace), s.nextRid) == if code >= 200 then [code] else []
  {
  }

  lemma ProvisionalKeeps(s: State, code: nat)
    requires Inv(s) && code < 200
    ensures Inv(SendProvisional(s, code))
  {
  }

  lemma InfoKeeps(s: State)
    requires Inv(s)
    ensures Inv(SendDtmfInfo(s))
  {
  }

  lemma ByeKeeps(s: State, req: Request)
    requires Inv(s)
    ensures Inv(OnBye(s, req))
  {
    var matches := InDialog(s.(nextRid := s.nextRid + 1), req);
    var s1 := OnOther(s, Bye, if matches then 200 else 481);
    NewReplyKeeps(s, Bye, if matches then 200 else 481);
    if matches {
      FinishKeeps(s1, SipBye);
    }
  }

  lemma CancelKeeps(s0: State, req: Request)
    requires Inv(s0)
    ensures Inv(OnCancel(s0, req))
  {
    var s := OnOther(s0, Cancel, 200);
    NewReplyKeeps(s0, Cancel, 200);
    if CancelMatches(s, req) {
      InformByFailure(s, 487);
      FinishKeeps(Emit(s, Reply(s.call.value.invite.rid, Invite, 487)), SipCancel);
    }
  }

  // ------------------------------------------------------------ media keeps it

  /** A call we received, before its final response. */
  ghost predicate Ringing(s: State) {
    Inv(s) && s.call.Some? && s.call.value.role == FromSip && !s.call.value.answered
  }

  lemma StartMediaKeeps(s: State, audioOk: bool)
    requires Ringing(s) && s.call.value.media.None?
    ensures var r := StartMedia(s, s.call.value.codec, audioOk);
            if r.ok then Ringing(r.s) && r.s.call.value.media.Some? && r.s.call.value.remoteSdp == s.call.value.remoteSdp
                         && r.s.call.value.codec == s.call.value.codec
            else r.s == s
  {
  }

  /** With the media up, the stored offer can be answered; only a final code changes what is owed. */
  lemma AnswerStored(s: State, code: nat)
    requires Ringing(s) && s.call.value.media.Some? && (code < 200 || code == 200)
    ensures var r := RespondWithMedia(s, code, true);
            r.ok && r.s.call == s.call && r.s.modem == s.modem
    ensures var r := RespondWithMedia(s, code, true);
            if code < 200 then Ringing(r.s) else Inv(SetCall(r.s, r.s.call.value.(answered := true)))
  {
    var c := s.call.value;
    var offer := c.remoteSdp.value;
    AnswerConforms(offer, s.cfg.advertised, c.localRtpPort, c.codec, Some(s.cfg.dtmfPt), s.cfg.ptime);
  }

  lemma RespondKeeps(s: State, code: nat, audioOk: bool)
    requires Ringing(s) && (code < 200 || code == 200)
    ensures var r := RespondWithMedia(s, code, audioOk);
            if !r.ok then r.s == s
            else r.s.call.Some? && r.s.call.value.media.Some? && r.s.modem == s.modem
    ensures var r := RespondWithMedia(s, code, audioOk);
            r.ok ==> if code < 200 then Ringing(r.s) else Inv(SetCall(r.s, r.s.call.value.(answered := true)))
  {
    if s.call.value.media.Some? {
      AnswerStored(s, code);
    } else {
      StartMediaKeeps(s, audioOk);
      var r := StartMedia(s, s.call.value.codec, audioOk);
      if r.ok {
        AnswerStored(r.s, code);
      }
    }
  }

  lemma EarlyFlagKeeps(s: State)
    requires Ringing(s)
    ensures Inv(SetCall(s, s.call.value.(earlyMedia := true)))
  {
  }

  lemma UpgradeKeeps(s: State, audioOk: bool)
    requires Inv(s) && s.call.Some? && s.call.value.role == FromSip
    ensures Inv(UpgradeToEarlyMedia(s, audioOk))
  {
    if !s.call.value.earlyMedia && !s.call.value.answered {
      RespondKeeps(s, 183, audioOk);
      var r := RespondWithMedia(s, 183, audioOk);
      if r.ok {
        EarlyFlagKeeps(r.s);
      }
    }
  }

  lemma AlertingKeeps(s: State, audioOk: bool)
    requires Ringing(s)
    ensures Inv(if s.cfg.earlyMedia then
                  var r := StartEarlyMedia(s, audioOk);
                  if r.ok then r.s else SendProvisional(r.s, 180)
                else SendProvisional(s, 180))
  {
    if s.cfg.earlyMedia && s.call.value.media.None? {
      StartMediaKeeps(s, audioOk);
      var r := StartMedia(s, s.call.value.codec, audioOk);
      ProvisionalKeeps(r.s, 180);
    } else {
      ProvisionalKeeps(s, 180);
    }
  }

  lemma ModemAnsweredKeeps(s: State, audioOk: bool)
    requires Ringing(s)
    ensures Inv(OnModemAnswered(s, audioOk))
  {
    RespondKeeps(s, 200, audioOk);
    if !RespondWithMedia(s, 200, audioOk).ok {
      TeardownKeeps(s, 500);
    }
  }

  /** Ringing reported after the answer changes nothing but the flag. */
  lemma LateAlertingKeeps(s: State, audioOk: bool)
    requires Inv(s) && s.call.Some? && s.call.value.answered
    ensures Inv(SendProvisional(s, 180)) && StartEarlyMedia(s, audioOk) == Outcome(true, SendProvisional(s, 180))
  {
    ProvisionalKeeps(s, 180);
  }

  lemma ActiveIsReceived(s: State, path: MmPath, reason: Reason, audioOk: bool)
    requires Inv(s) && EnvOk(s, CallState(path, Active, reason, audioOk)) && OwnsLeg(s, path) && !s.call.value.answered
    ensures Ringing(s)
  {
  }

  lemma CallStateKeeps(s: State, path: MmPath, leg: LegState, reason: Reason, audioOk: bool)
    requires Inv(s) && EnvOk(s, CallState(path, leg, reason, audioOk))
    ensures Inv(OnCallState(s, path, leg, reason, audioOk))
  {
    hide Inv, EnvOk, StartEarlyMedia, SendProvisional, OnModemAnswered, TeardownCall;
    if OwnsLeg(s, path) {
      var c := s.call.value;
      match leg
      case Alerting =>
        if c.role == FromSip && !c.ringingSent {
          if c.answered { LateAlertingKeeps(s, audioOk); } else { AlertingKeeps(s, audioOk); }
        }
      case Active =>
        if !c.answered {
          ActiveIsReceived(s, path, reason, audioOk);
          ModemAnsweredKeeps(s, audioOk);
        }
      case Terminated => TeardownEnds(s, match reason
                                         case RefusedOrBusy => 486
                                         case Failed => 500
                                         case NormalEnd => if c.answered then 200 else 480);
      case OtherState =>
    }
  }

  // ------------------------------------------------------ starting calls keeps it

  /** Hanging up or deleting a leg that is not the call's. */
  lemma OtherLegKeeps(s: State, path: MmPath)
    requires Inv(s) && !OwnsLeg(s, path)
    ensures Inv(Emit(s, Hangup(path))) && Inv(Emit(s, DeleteCall(path)))
  {
    hide Hist, Lawful;
    EmitLawful(s, Hangup(path));
    EmitLawful(s, DeleteCall(path));
  }

  lemma OfferedLeg(s: State, path: MmPath)
    requires Inv(s) && s.call.None?
    ensures var s1 := Emit(s, OfferLeg(path));
            Quiet(s1, Hist(s1.trace)) && Hist(s1.trace).openLegs == {path} && Hist(s1.trace).started == Hist(s.trace).started
  {
    hide Hist, Lawful;
    EmitLawful(s, OfferLeg(path));
  }

  lemma CallAddedKeeps(s: State, path: MmPath, info: Option<CallInfo>, setup: Setup)
    requires Inv(s) && EnvOk(s, CallAdded(path, info, setup))
    ensures Inv(OnCallAdded(s, path, info, setup))
  {
    hide Inv, StartSipCall, Quiet, Hist;
    if !OwnsLeg(s, path) {
      OtherLegKeeps(s, path);
      if s.modem && s.call.None? {
        OfferedLeg(s, path);
        OfferKeeps(Emit(s, OfferLeg(path)), path, setup);
      }
    }
  }

  lemma OfferKeeps(s: State, path: MmPath, setup: Setup)
    requires s.modem && s.call.None? && Quiet(s, Hist(s.trace)) && Hist(s.trace).openLegs == {path}
    requires setup.SetupOk? ==> setup.callId !in Hist(s.trace).started
    ensures Inv(StartSipCall(s, path, setup))
  {
    hide Hist, Lawful;
    if setup.SetupOk? {
      var s0 := TakeTx(s).(nextRid := s.nextRid + 1);
      var o := CallStarted(setup.callId, ToSip, s.nextRid, setup.port, Pcmu);
      EmitLawful(s0, o);
      EmitLawful(Emit(s0, o), SendInvite(setup.callId, FreshTx(s)));
    } else {
      EmitLawful(s, Hangup(path));
    }
  }

  lemma PlaceKeeps(s: State, rid: nat, req: Request, codec: Codec, bound: Option<nat>, dialled: Option<MmPath>, tag: Tag)
    requires Inv(s) && Unanswered(s, rid) && s.call.None? && s.modem
    requires req.callId.Some? && req.callId.value !in Hist(s.trace).started
    requires req.sdp.Some? && PayloadType(codec) in req.sdp.value.payloadTypes && HasMedia(req.sdp.value)
    ensures Inv(PlaceCall(s, rid, req, codec, bound, dialled, tag))
  {
    hide Hist, Lawful, PayloadType, HasMedia;
    if bound.Some? && dialled.Some? {
      EmitLawful(s, Dial(dialled.value));
      EmitLawful(Emit(s, Dial(dialled.value)), CallStarted(req.callId.value, FromSip, rid, bound.value, codec));
    } else {
      RefusalKeeps(s, rid, if bound.None? then 500 else 503);
    }
  }

  /** A delivered request gets its own identity, which nothing has answered yet. */
  lemma ArrivalKeeps(s: State)
    requires Inv(s)
    ensures Inv(s.(nextRid := s.nextRid + 1)) && FinalsOf(Hist(s.trace), s.nextRid) == []
    ensures s.call.Some? ==> s.call.value.invite.rid != s.nextRid
  {
  }

  /** `rid` was delivered, is not the stored INVITE, and has had no final response. */
  ghost predicate Unanswered(s: State, rid: nat) {
    rid < s.nextRid && FinalsOf(Hist(s.trace), rid) == [] && (s.call.Some? ==> rid != s.call.value.invite.rid)
  }

  lemma RefusalKeeps(s: State, rid: nat, code: nat)
    requires Inv(s) && Unanswered(s, rid) && code >= 400
    ensures Inv(Emit(s, Reply(rid, Invite, code)))
  {
  }

  lemma NewOfferKeeps(s: State, offer: Sdp)
    requires Inv(s) && s.call.Some? && s.call.value.answered
    requires PayloadType(s.call.value.codec) in offer.payloadTypes && HasMedia(offer)
    ensures Inv(SetCall(s, s.call.value.(remoteSdp := Some(offer))))
  {
  }

  lemma ReinviteAnswerKeeps(s: State, rid: nat, base: Sdp)
    requires Inv(s) && Unanswered(s, rid) && s.call.Some? && s.call.value.answered
    requires s.call.value.role == FromSip ==> PayloadType(s.call.value.codec) in base.payloadTypes && HasMedia(base)
    ensures var c := s.call.value;
            Inv(Emit(s, ReplySdp(rid, Invite, 200, c.callId, ReinviteAnswer(s, base), base, c.media.value.dtmfPt)))
  {
    var c := s.call.value;
    var pt := if c.mediaDtmfPt.Some? && base.telephoneEvent == c.mediaDtmfPt then c.mediaDtmfPt else None;
    AnswerConforms(base, s.cfg.advertised, c.localRtpPort, c.codec, pt, s.cfg.ptime);
  }

  lemma ReinviteKeeps(s: State, rid: nat, req: Request)
    requires Inv(s) && Unanswered(s, rid) && s.call.Some? && s.call.value.answered
    ensures Inv(OnReinvite(s, rid, req))
  {
    hide Permitted, Record, Lawful;
    var c := s.call.value;
    var offer := ReinviteOffer(req);
    RefusalKeeps(s, rid, 491);
    RefusalKeeps(s, rid, 481);
    RefusalKeeps(s, rid, 488);
    if offer.None? {
      ReinviteAnswerKeeps(s, rid, c.remoteSdp.value);
    } else if PayloadType(c.codec) in offer.value.payloadTypes {
      NewOfferKeeps(s, offer.value);
      ReinviteAnswerKeeps(SetCall(s, c.(remoteSdp := offer)), rid, offer.value);
    }
  }

  lemma RepeatedInviteKeeps(s: State, rid: nat, req: Request, audioOk: bool)
    requires Inv(s) && Unanswered(s, rid) && s.call.Some?
    ensures Inv(OnRepeatedInvite(s, rid, req, audioOk))
  {
    var c := s.call.value;
    if c.answered {
      ReinviteKeeps(s, rid, req);
    } else if c.earlyMedia {
      RespondKeeps(s, 183, audioOk);
    } else {
      ProvisionalKeeps(s, 180);
    }
  }

  lemma TryingKeeps(s: State, rid: nat)
    requires Inv(s) && Unanswered(s, rid)
    ensures Inv(Emit(s, Reply(rid, Invite, 100))) && Unanswered(Emit(s, Reply(rid, Invite, 100)), rid)
    ensures Hist(Emit(s, Reply(rid, Invite, 100)).trace).started == Hist(s.trace).started
  {
  }

  lemma NewInviteKeeps(s: State, rid: nat, req: Request, bound: Option<nat>, dialled: Option<MmPath>, tag: Tag)
    requires Inv(s) && Unanswered(s, rid) && s.call.None?
    requires req.callId.Some? ==> req.callId.value !in Hist(s.trace).started
    ensures Inv(OnNewInvite(s, rid, req, bound, dialled, tag))
  {
    match Screen(s.modem, req)
    case Refuse(code) => RefusalKeeps(s, rid, code);
    case Take(codec) =>
      TryingKeeps(s, rid);
      PlaceKeeps(Emit(s, Reply(rid, Invite, 100)), rid, req, codec, bound, dialled, tag);
  }

  lemma InviteKeeps(s0: State, req: Request, bound: Option<nat>, dialled: Option<MmPath>, tag: Tag, audioOk: bool)
    requires Inv(s0) && EnvOk(s0, InviteRequest(req, bound, dialled, tag, audioOk))
    ensures Inv(OnInvite(s0, req, bound, dialled, tag, audioOk))
  {
    hide Inv, OnNewInvite, OnRepeatedInvite;
    var rid := s0.nextRid;
    var s := s0.(nextRid := rid + 1);
    ArrivalKeeps(s0);
    if s.call.None? {
      NewInviteKeeps(s, rid, req, bound, dialled, tag);
    } else if req.callId == Some(s.call.value.callId) {
      RepeatedInviteKeeps(s, rid, req, audioOk);
    } else {
      RefusalKeeps(s, rid, 486);
    }
  }

  // --------------------------------------------- responses to our INVITE keep it

  /** A call we placed whose response task is still running. */
  ghost predicate Waiting(s: State) {
    Inv(s) && s.call.Some? && s.call.value.role == ToSip && !s.call.value.answered
  }

  lemma PendingIsWaiting(s: State, id: CallId)
    requires Inv(s) && CallIdMatches(s, id) && PlacedAndPending(s, Hist(s.trace), id)
    ensures Waiting(TaskEnded(s))
  {
  }

  lemma FailureAckKeeps(s: State)
    requires Waiting(s)
    ensures Waiting(AckFailure(s)) && AckFailure(s).call == s.call
  {
  }

  lemma RejectedKeeps(s0: State, id: CallId, resp: Response, answerable: bool)
    requires Inv(s0) && EnvOk(s0, Rejected(id, resp, answerable))
    ensures Inv(OnRejected(s0, id, resp, answerable))
  {
    if CallIdMatches(s0, id) {
      PendingIsWaiting(s0, id);
      FailureAckKeeps(TaskEnded(s0));
      var s := AckFailure(TaskEnded(s0));
      if MayRetry(s, resp, answerable) {
        RetryKeeps(s);
      } else {
        FinishKeeps(s, SipRejected);
      }
    }
  }

  lemma RetryKeeps(s: State)
    requires Waiting(s) && !s.call.value.authRetried
    ensures Inv(RetryInvite(s))
  {
  }

  lemma RingTimeoutKeeps(s0: State, id: CallId)
    requires Inv(s0) && EnvOk(s0, RingTimeout(id))
    ensures Inv(OnRingTimeout(s0, id))
  {
    if CallIdMatches(s0, id) {
      PendingIsWaiting(s0, id);
      InformByCancel(TaskEnded(s0));
      FinishKeeps(CancelOutgoingInvite(TaskEnded(s0)), RingTimedOut);
    }
  }

  /** Right after the ACK: the dialog is up, the media is not. */
  ghost predicate JustAcked(s: State) {
    && s.call.Some? && s.modem && LegsOk(s)
    && var h := Hist(s.trace);
       var c := s.call.value;
       var d := DialogOf(h, c.callId);
       && Quiet(s, h) && Teardownable(s, h, c)
       && c.role == ToSip && c.answered && OnePortOwner(c) && c.media.None?
       && !d.mediaUp && !d.accepted && h.started[c.callId].port == c.localRtpPort
       && |d.invites| == (if c.authRetried then 2 else 1)
       && FinalsOf(h, c.invite.rid) == []
       && !c.earlyMedia && !c.responseTask
  }

  lemma AckKeeps(s: State, resp: Response)
    requires Waiting(s) && !s.call.value.responseTask
    ensures JustAcked(AckAnswer(s, resp))
  {
  }

  lemma MediaAfterAckKeeps(s: State, codec: Codec, audioOk: bool)
    requires JustAcked(s) && s.call.value.remoteSdp.Some?
    ensures var r := StartMedia(s, codec, audioOk);
            if r.ok then Inv(r.s) && Accepting(r.s) else r.s == s
  {
  }

  /** The media runs and the leg has not been accepted yet. */
  ghost predicate Accepting(s: State) {
    s.call.Some? && s.call.value.role == ToSip && s.call.value.answered &&
    !DialogOf(Hist(s.trace), s.call.value.callId).accepted
  }

  lemma AcceptKeeps(s: State)
    requires Inv(s) && Accepting(s)
    ensures Inv(Emit(s, Accept(s.call.value.callId, s.call.value.mmPath.value)))
  {
  }

  lemma ConnectKeeps(s: State, codec: Codec, audioOk: bool, acceptOk: bool)
    requires JustAcked(s) && s.call.value.remoteSdp.Some?
    ensures Inv(ConnectLeg(s, codec, audioOk, acceptOk))
  {
    MediaAfterAckKeeps(s, codec, audioOk);
    var r := StartMedia(s, codec, audioOk);
    if !r.ok {
      TeardownKeeps(s, 500);
    } else {
      AcceptKeeps(r.s);
      TeardownKeeps(Emit(r.s, Accept(r.s.call.value.callId, r.s.call.value.mmPath.value)), 500);
    }
  }

  lemma AnsweredKeeps(s0: State, id: CallId, resp: Response, audioOk: bool, acceptOk: bool)
    requires Inv(s0) && EnvOk(s0, Answered(id, resp, audioOk, acceptOk))
    ensures Inv(OnAnswered(s0, id, resp, audioOk, acceptOk))
  {
    if CallIdMatches(s0, id) {
      PendingIsWaiting(s0, id);
      AckKeeps(TaskEnded(s0), resp);
      var s := AckAnswer(TaskEnded(s0), resp);
      if resp.sdp.None? || !HasMedia(resp.sdp.value) {
        TeardownKeeps(s, 200);
      } else {
        var n := Negotiate(resp.sdp.value.payloadTypes);
        var codec := if n.Some? then n.value else Pcmu;
        ConnectKeeps(SetCall(s, s.call.value.(codec := codec, remoteSdp := resp.sdp)), codec, audioOk, acceptOk);
      }
    }
  }

  lemma CheckMediaKeeps(s: State, audioFailed: bool, silent: bool)
    requires Inv(s)
    ensures Inv(CheckMedia(s, audioFailed, silent))
  {
    hide Inv, TeardownCall;
    TeardownEnds(s, 200);
  }

  // ---------------------------------------------------------------- every run

  lemma ModemStepKeeps(s: State, ev: Event)
    requires Inv(s) && EnvOk(s, ev) && s.running
    requires ev.ModemDown? || ev.CallAdded? || ev.CallDeleted? || ev.CallState? || ev.ModemDtmf? || ev.Watchdog? || ev.Shutdown?
    ensures Inv(Step(s, ev))
  {
    hide Inv, EnvOk, OnModemDown, OnCallAdded, OnCallState, CheckMedia, SendDtmfInfo, TeardownCall;
    match ev
    case ModemDown => DownKeeps(s);
    case CallAdded(path, info, setup) => CallAddedKeeps(s, path, info, setup);
    case CallDeleted(path) => TeardownEnds(s, 200);
    case CallState(path, leg, reason, audioOk) => CallStateKeeps(s, path, leg, reason, audioOk);
    case ModemDtmf(path) => InfoKeeps(s);
    case Watchdog(audioFailed, silent) => CheckMediaKeeps(s, audioFailed, silent);
    case Shutdown => TeardownEnds(s, 200);
  }

  lemma RequestStepKeeps(s: State, ev: Event)
    requires Inv(s) && EnvOk(s, ev) && s.running
    requires ev.InviteRequest? || ev.ByeRequest? || ev.CancelRequest? || ev.InfoRequest? || ev.OtherRequest?
    ensures Inv(Step(s, ev))
  {
    hide Inv, EnvOk, OnInvite, OnBye, OnCancel, OnOther, InfoCode;
    match ev
    case InviteRequest(req, bound, dialled, tag, audioOk) => InviteKeeps(s, req, bound, dialled, tag, audioOk);
    case ByeRequest(req) => ByeKeeps(s, req);
    case CancelRequest(req) => CancelKeeps(s, req);
    case InfoRequest(req, digits, delivered) => NewReplyKeeps(s, Info, InfoCode(s, req, digits, delivered));
    case OtherRequest => NewReplyKeeps(s, Other, 405);
  }

  lemma EarlyIsReceived(s: State, id: CallId, audioOk: bool)
    requires Inv(s) && EnvOk(s, EarlyAudio(id, audioOk)) && CallIdMatches(s, id)
    ensures s.call.value.role == FromSip
  {
  }

  lemma InternalStepKeeps(s: State, ev: Event)
    requires Inv(s) && EnvOk(s, ev) && s.running
    requires ev.Answered? || ev.Rejected? || ev.RingTimeout? || ev.EarlyAudio? || ev.DtmfFromModem?
    ensures Inv(Step(s, ev))
  {
    hide Inv, OnAnswered, OnRejected, OnRingTimeout, UpgradeToEarlyMedia, SendDtmfInfo;
    match ev
    case Answered(id, resp, audioOk, acceptOk) => AnsweredKeeps(s, id, resp, audioOk, acceptOk);
    case Rejected(id, resp, answerable) => RejectedKeeps(s, id, resp, answerable);
    case RingTimeout(id) => RingTimeoutKeeps(s, id);
    case EarlyAudio(id, audioOk) =>
      if CallIdMatches(s, id) {
        EarlyIsReceived(s, id, audioOk);
        UpgradeKeeps(s, audioOk);
      }
    case DtmfFromModem(id) => InfoKeeps(s);
  }

  lemma StepKeeps(s: State, ev: Event)
    requires Inv(s) && EnvOk(s, ev)
    ensures Inv(Step(s, ev))
  {
    if s.running {
      if ev.ModemDown? || ev.CallAdded? || ev.CallDeleted? || ev.CallState? || ev.ModemDtmf? || ev.Watchdog? || ev.Shutdown? {
        ModemStepKeeps(s, ev);
      } else if ev.InviteRequest? || ev.ByeRequest? || ev.CancelRequest? || ev.InfoRequest? || ev.OtherRequest? {
        RequestStepKeeps(s, ev);
      } else if !ev.ModemUp? && !ev.AckRequest? && !ev.Progress? {
        InternalStepKeeps(s, ev);
      }
    }
  }

  /** Every reachable state satisfies the invariant, so every output of every run was permitted. */
  lemma {:induction false} RunKeeps(cfg: Config, evs: seq<Event>)
    requires EnvRun(Init(cfg), evs)
    ensures Inv(Run(Init(cfg), evs))
  {
    if evs != [] {
      RunKeeps(cfg, evs[..|evs| - 1]);
      StepKeeps(Run(Init(cfg), evs[..|evs| - 1]), evs[|evs| - 1]);
    }
  }
}
