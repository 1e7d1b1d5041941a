/**
 The gateway task of src/gateway.rs in its own form: one object owns the call and its
 handlers update it step by step.  Every handler is proved to do exactly what the
 function of the same name in GatewayModel says.
 */
module GatewayTask {
  import opened Util
  import opened SdpModel
  import opened GatewayModel
  import opened GatewaySafety

  class Gateway {
    const cfg: Config
    var running: bool
    var modem: bool
    var call: Option<ActiveCall>
    var cseq: nat
    var nextBranch: nat
    var nextRid: nat
    ghost var trace: Trace

    ghost function View(): State
      reads this
    {
      State(cfg, running, modem, call, cseq, nextBranch, nextRid, trace)
    }

    constructor (cfg: Config)
      ensures View() == Init(cfg) && Inv(View())
    {
      this.cfg := cfg;
      running, modem, call := true, false, None;
      cseq, nextBranch, nextRid, trace := 1, 0, 0, Start;
    }

    // --------------------------------------------------------------- helpers

    method Put(o: Output)
      modifies this`trace
      ensures View() == Emit(old(View()), o)
    {
      trace := Then(trace, o);
    }

    method SetTo(c: ActiveCall)
      modifies this`call
      ensures View() == SetCall(old(View()), c)
    {
      call := Some(c);
    }

    method Arrive() returns (rid: nat)
      modifies this`nextRid
      ensures rid == old(View()).nextRid && View() == old(View()).(nextRid := rid + 1)
    {
      rid := nextRid;
      nextRid := nextRid + 1;
    }

    method NextTx() returns (tx: Tx)
      modifies this`cseq, this`nextBranch
      ensures tx == FreshTx(old(View())) && View() == TakeTx(old(View()))
    {
      tx := Tx(nextBranch, cseq);
      nextBranch, cseq := nextBranch + 1, cseq + 1;
    }

    method DoHangupLeg()
      modifies this`trace
      ensures View() == HangupLeg(old(View()))
    {
      if modem && call.Some? && call.value.mmPath.Some? {
        Put(Hangup(call.value.mmPath.value));
      }
    }

    method DoFinishCall(cause: Cause)
      modifies this
      ensures View() == FinishCall(old(View()), cause)
    {
      if call.Some? {
        var c := call.value;
        call := None;
        Put(CallDropped(c.callId, c.role, c.invite.rid, cause));
      }
    }

    method DoSendProvisional(code: nat)
      modifies this
      ensures View() == SendProvisional(old(View()), code)
    {
      if call.None? { return; }
      if code == 180 {
        SetTo(call.value.(ringingSent := true));
      }
      Put(Reply(call.value.invite.rid, Invite, code));
    }

    method DoCancelOutgoingInvite()
      modifies this`trace
      ensures View() == CancelOutgoingInvite(old(View()))
    {
      if call.None? || call.value.role != ToSip || call.value.answered || call.value.invite.Received? { return; }
      Put(SendCancel(call.value.callId, Tx(call.value.invite.tx.branch, call.value.localCseq)));
    }

    method DoTeardownCall(code: nat)
      modifies this
      ensures View() == TeardownCall(old(View()), code)
    {
      if call.None? { return; }
      if call.value.answered {
        var tx := NextTx();
        Put(SendBye(call.value.callId, tx));
      } else if call.value.role == FromSip {
        Put(Reply(call.value.invite.rid, Invite, if code < 400 then 480 else code));
      } else {
        DoCancelOutgoingInvite();
      }
      DoHangupLeg();
      DoFinishCall(TornDown);
    }

    method DoSendDtmfInfo()
      modifies this
      ensures View() == SendDtmfInfo(old(View()))
    {
      if call.None? { return; }
      var tx := NextTx();
      Put(SendInfo(call.value.callId, tx));
    }

    // ----------------------------------------------------------------- media

    method DoStartMedia(codec: Codec, audioOk: bool) returns (ok: bool)
      modifies this
      ensures ok == StartMedia(old(View()), codec, audioOk).ok && View() == StartMedia(old(View()), codec, audioOk).s
    {
      if !modem || !audioOk || call.None? || call.value.rtpSocket.None? { return false; }
      hide Emit;
      var c := call.value;
      var pt := if c.remoteSdp.Some? then c.remoteSdp.value.telephoneEvent else None;
      var media := Media(c.rtpSocket.value, codec, pt);
      SetTo(c.(rtpSocket := None, mediaDtmfPt := pt, media := Some(media)));
      Put(MediaStarted(c.callId));
      return true;
    }

    method DoRespondWithMedia(code: nat, audioOk: bool) returns (ok: bool)
      modifies this
      ensures ok == RespondWithMedia(old(View()), code, audioOk).ok && View() == RespondWithMedia(old(View()), code, audioOk).s
    {
      if call.None? { return true; }
      if call.value.remoteSdp.None? { return false; }
      var offer, codec := call.value.remoteSdp.value, call.value.codec;
      if call.value.media.None? {
        var started := DoStartMedia(codec, audioOk);
        if !started { return false; }
      }
      var answer := SdpModel.Answer(offer, cfg.advertised, call.value.localRtpPort, codec, Some(cfg.dtmfPt), cfg.ptime);
      Put(ReplySdp(call.value.invite.rid, Invite, code, call.value.callId, answer, offer,
                   if call.value.media.Some? then call.value.media.value.dtmfPt else None));
      return true;
    }

    method DoStartEarlyMedia(audioOk: bool) returns (ok: bool)
      modifies this
      ensures ok == StartEarlyMedia(old(View()), audioOk).ok && View() == StartEarlyMedia(old(View()), audioOk).s
    {
      if call.None? { return true; }
      if call.value.media.None? {
        if call.value.remoteSdp.None? { return false; }
        var started := DoStartMedia(call.value.codec, audioOk);
        if !started { return false; }
      }
      DoSendProvisional(180);
      return true;
    }

    method DoUpgradeToEarlyMedia(audioOk: bool)
      modifies this
      ensures View() == UpgradeToEarlyMedia(old(View()), audioOk)
    {
      if call.None? || call.value.earlyMedia || call.value.answered { return; }
      var ok := DoRespondWithMedia(183, audioOk);
      if ok && call.Some? {
        SetTo(call.value.(earlyMedia := true));
      }
    }

    // ------------------------------------------------------------ modem side

    method DoModemDown()
      modifies this
      ensures View() == OnModemDown(old(View()))
    {
      modem := false;
      Put(ModemGone);
      DoTeardownCall(503);
    }

    method DoCallAdded(path: MmPath, info: Option<CallInfo>, setup: Setup)
      modifies this
      ensures View() == OnCallAdded(old(View()), path, info, setup)
    {
      if !modem { return; }
      if call.Some? && call.value.mmPath == Some(path) { return; }
      if info.None? { return; }
      if info.value.terminated {
        Put(DeleteCall(path));
        return;
      }
      if !info.value.incoming {
        Put(Hangup(path));
        return;
      }
      if call.Some? {
        Put(Hangup(path));
        return;
      }
      Put(OfferLeg(path));
      match setup
      case SetupFailed => Put(Hangup(path));
      case SetupOk(callId, localTag, port) =>
        var rid := Arrive();
        Put(CallStarted(callId, ToSip, rid, port, Pcmu));
        var tx := NextTx();
        Put(SendInvite(callId, tx));
        call := Some(ActiveCall(ToSip, Some(path), callId, Some(localTag), None, tx.cseq, Sent(rid, tx),
                                None, Some(port), port, Pcmu, None, None, false, false, false, false, true));
    }

    method DoModemAnswered(audioOk: bool)
      modifies this
      ensures View() == OnModemAnswered(old(View()), audioOk)
    {
      if call.None? { return; }
      if call.value.role == FromSip {
        var ok := DoRespondWithMedia(200, audioOk);
        if !ok {
          DoTeardownCall(500);
          return;
        }
      }
      if call.Some? {
        SetTo(call.value.(answered := true));
      }
    }

    method DoCallState(path: MmPath, leg: LegState, reason: Reason, audioOk: bool)
      modifies this
      ensures View() == OnCallState(old(View()), path, leg, reason, audioOk)
    {
      if call.None? || call.value.mmPath != Some(path) { return; }
      match leg
      case Alerting =>
        if call.value.role == FromSip && !call.value.ringingSent {
          if cfg.earlyMedia {
            var ok := DoStartEarlyMedia(audioOk);
            if !ok {
              DoSendProvisional(180);
            }
          } else {
            DoSendProvisional(180);
          }
        }
      case Active =>
        if !call.value.answered {
          DoModemAnswered(audioOk);
        }
      case Terminated =>
        var code := match reason
                    case RefusedOrBusy => 486
                    case Failed => 500
                    case NormalEnd => if call.value.answered then 200 else 480;
        DoTeardownCall(code);
      case OtherState =>
    }

    // -------------------------------------------------------------- SIP side

    method DoInvite(req: Request, bound: Option<nat>, dialled: Option<MmPath>, tag: Tag, audioOk: bool)
      modifies this
      ensures View() == OnInvite(old(View()), req, bound, dialled, tag, audioOk)
    {
      hide OnNewInvite, OnRepeatedInvite;
      var rid := Arrive();
      if call.None? {
        DoNewInvite(rid, req, bound, dialled, tag);
      } else if req.callId == Some(call.value.callId) {
        DoRepeatedInvite(rid, req, audioOk);
      } else {
        Put(Reply(rid, Invite, 486));
      }
    }

    method DoNewInvite(rid: nat, req: Request, bound: Option<nat>, dialled: Option<MmPath>, tag: Tag)
      modifies this
      ensures View() == OnNewInvite(old(View()), rid, req, bound, dialled, tag)
    {
      if !modem { Put(Reply(rid, Invite, 503)); return; }
      if req.number == [] { Put(Reply(rid, Invite, 484)); return; }
      if req.sdp.None? { Put(Reply(rid, Invite, 488)); return; }
      var codec := Negotiate(req.sdp.value.payloadTypes);
      if codec.None? { Put(Reply(rid, Invite, 488)); return; }
      if !HasMedia(req.sdp.value) { Put(Reply(rid, Invite, 488)); return; }
      if !req.hasTo || !req.hasFrom || req.callId.None? { Put(Reply(rid, Invite, 400)); return; }
      Put(Reply(rid, Invite, 100));
      if bound.None? { Put(Reply(rid, Invite, 500)); return; }
      if dialled.None? { Put(Reply(rid, Invite, 503)); return; }
      Put(Dial(dialled.value));
      Put(CallStarted(req.callId.value, FromSip, rid, bound.value, codec.value));
      call := Some(ActiveCall(FromSip, dialled, req.callId.value, Some(tag), req.fromTag, cseq, Received(rid, req.cseq),
                              None, bound, bound.value, codec.value, req.sdp, None, false, false, false, false, false));
      cseq := cseq + 1;
    }

    method DoRepeatedInvite(rid: nat, req: Request, audioOk: bool)
      requires call.Some?
      modifies this
      ensures View() == OnRepeatedInvite(old(View()), rid, req, audioOk)
    {
      if !call.value.answered {
        if call.value.earlyMedia {
          var _ := DoRespondWithMedia(183, audioOk);
        } else {
          DoSendProvisional(180);
        }
      } else {
        DoReinvite(rid, req);
      }
    }

    method DoReinvite(rid: nat, req: Request)
      requires call.Some?
      modifies this
      ensures View() == OnReinvite(old(View()), rid, req)
    {
      var pending := !call.value.answered
                     || (call.value.role == FromSip && OptionLe(req.cseq, StoredSeqNo(call.value)));
      if pending { Put(Reply(rid, Invite, 491)); return; }
      if !InDialogOf(call.value, req) { Put(Reply(rid, Invite, 481)); return; }
      var offer := ReinviteOffer(req);
      if offer.Some? && PayloadType(call.value.codec) !in offer.value.payloadTypes {
        Put(Reply(rid, Invite, 488));
        return;
      }
      var c := call.value;
      var base := if offer.Some? then offer else c.remoteSdp;
      if offer.Some? {
        SetTo(c.(remoteSdp := offer));
      }
      if base.None? { Put(Reply(rid, Invite, 200)); return; }
      var pt := if c.mediaDtmfPt.Some? && base.value.telephoneEvent == c.mediaDtmfPt then c.mediaDtmfPt else None;
      var answer := SdpModel.Answer(base.value, cfg.advertised, c.localRtpPort, c.codec, pt, cfg.ptime);
      Put(ReplySdp(rid, Invite, 200, c.callId, answer, base.value, if c.media.Some? then c.media.value.dtmfPt else None));
    }

    method DoBye(req: Request)
      modifies this
      ensures View() == OnBye(old(View()), req)
    {
      var rid := Arrive();
      var matches := call.Some? && InDialogOf(call.value, req);
      Put(Reply(rid, Bye, if matches then 200 else 481));
      if matches {
        DoHangupLeg();
        DoFinishCall(SipBye);
      }
    }

    method DoCancel(req: Request)
      modifies this
      ensures View() == OnCancel(old(View()), req)
    {
      var rid := Arrive();
      Put(Reply(rid, Cancel, 200));
      if && call.Some? && call.value.role == FromSip && !call.value.answered
         && req.callId == Some(call.value.callId) && req.cseq == StoredSeqNo(call.value)
      {
        Put(Reply(call.value.invite.rid, Invite, 487));
        DoHangupLeg();
        DoFinishCall(SipCancel);
      }
    }

    method DoOther(verb: Method, code: nat)
      modifies this
      ensures View() == OnOther(old(View()), verb, code)
    {
      var rid := Arrive();
      Put(Reply(rid, verb, code));
    }

    method DoInfo(req: Request, digits: Option<string>, delivered: bool)
      modifies this
      ensures View() == OnOther(old(View()), Info, InfoCode(old(View()), req, digits, delivered))
    {
      var inDialog := call.Some? && InDialogOf(call.value, req) && call.value.mmPath.Some?;
      var code := 200;
      match digits {
        case None => code := 415;
        case Some(d) =>
          if d != [] {
            if inDialog {
              if !delivered { code := 500; }
            } else {
              code := 481;
            }
          }
      }
      DoOther(Info, code);
    }

    // ------------------------------------------------------- internal events

    method DoRejected(id: CallId, resp: Response, answerable: bool)
      modifies this
      ensures View() == OnRejected(old(View()), id, resp, answerable)
    {
      if call.None? || call.value.callId != id { return; }
      SetTo(call.value.(responseTask := false));
      if call.value.role == ToSip && call.value.invite.Sent? {
        Put(SendFailureAck(call.value.callId, Tx(call.value.invite.tx.branch, call.value.localCseq)));
      }
      if && (resp.code == 401 || resp.code == 407) && call.value.role == ToSip
         && !call.value.answered && !call.value.authRetried && cfg.hasCredentials && answerable
      {
        var tx := NextTx();
        Put(SendInvite(call.value.callId, tx));
        call := Some(call.value.(authRetried := true, localCseq := tx.cseq, invite := Sent(call.value.invite.rid, tx),
                                 responseTask := true));
        return;
      }
      DoHangupLeg();
      DoFinishCall(SipRejected);
    }

    method DoRingTimeout(id: CallId)
      modifies this
      ensures View() == OnRingTimeout(old(View()), id)
    {
      if call.None? || call.value.callId != id { return; }
      SetTo(call.value.(responseTask := false));
      DoCancelOutgoingInvite();
      DoHangupLeg();
      DoFinishCall(RingTimedOut);
    }

    method DoConnectLeg(codec: Codec, audioOk: bool, acceptOk: bool)
      modifies this
      ensures View() == ConnectLeg(old(View()), codec, audioOk, acceptOk)
    {
      var ok := DoStartMedia(codec, audioOk);
      if !ok {
        DoTeardownCall(500);
        return;
      }
      if modem && call.Some? && call.value.mmPath.Some? {
        Put(Accept(call.value.callId, call.value.mmPath.value));
        if !acceptOk {
          DoTeardownCall(500);
        }
      }
    }

    method DoAckAnswer(resp: Response)
      requires call.Some?
      modifies this
      ensures View() == AckAnswer(old(View()), resp)
    {
      if resp.hasTo {
        SetTo(call.value.(remoteTag := resp.toTag));
      }
      Put(SendAck(call.value.callId, Tx(nextBranch, call.value.localCseq)));
      nextBranch := nextBranch + 1;
      SetTo(call.value.(answered := true));
    }

    method DoAnswered(id: CallId, resp: Response, audioOk: bool, acceptOk: bool)
      modifies this
      ensures View() == OnAnswered(old(View()), id, resp, audioOk, acceptOk)
    {
      if call.None? || call.value.callId != id { return; }
      SetTo(call.value.(responseTask := false));
      DoAckAnswer(resp);
      if resp.sdp.None? || !HasMedia(resp.sdp.value) {
        DoTeardownCall(200);
        return;
      }
      var n := Negotiate(resp.sdp.value.payloadTypes);
      var codec := if n.Some? then n.value else Pcmu;
      SetTo(call.value.(codec := codec, remoteSdp := resp.sdp));
      DoConnectLeg(codec, audioOk, acceptOk);
    }

    method DoCheckMedia(audioFailed: bool, silent: bool)
      modifies this
      ensures View() == CheckMedia(old(View()), audioFailed, silent)
    {
      if call.None? || call.value.media.None? { return; }
      if audioFailed {
        DoTeardownCall(200);
        return;
      }
      var peerSends := call.value.remoteSdp.None? || PeerSends(call.value.remoteSdp.value.direction);
      if peerSends && silent {
        DoTeardownCall(200);
      }
    }

    // ------------------------------------------------------------- event loop

    method DoModemEvent(ev: Event)
      requires running
      requires ev.ModemUp? || ev.ModemDown? || ev.CallAdded? || ev.CallDeleted? || ev.CallState? || ev.ModemDtmf?
      modifies this
      ensures View() == Step(old(View()), ev)
    {
      hide OnModemDown, OnCallAdded, OnCallState, SendDtmfInfo, TeardownCall;
      match ev
      case ModemUp => modem := true;
      case ModemDown => DoModemDown();
      case CallAdded(path, info, setup) => DoCallAdded(path, info, setup);
      case CallDeleted(path) => if call.Some? && call.value.mmPath == Some(path) { DoTeardownCall(200); }
      case CallState(path, leg, reason, audioOk) => DoCallState(path, leg, reason, audioOk);
      case ModemDtmf(path) => if call.Some? && call.value.mmPath == Some(path) { DoSendDtmfInfo(); }
    }

    method DoSipRequest(ev: Event)
      requires running
      requires ev.InviteRequest? || ev.ByeRequest? || ev.CancelRequest? || ev.InfoRequest? || ev.AckRequest? || ev.OtherRequest?
      modifies this
      ensures View() == Step(old(View()), ev)
    {
      hide OnInvite, OnBye, OnCancel, OnOther, InfoCode;
      match ev
      case InviteRequest(req, bound, dialled, tag, audioOk) => DoInvite(req, bound, dialled, tag, audioOk);
      case AckRequest =>
      case ByeRequest(req) => DoBye(req);
      case CancelRequest(req) => DoCancel(req);
      case InfoRequest(req, digits, delivered) => DoInfo(req, digits, delivered);
      case OtherRequest => DoOther(Other, 405);
    }

    method DoInternal(ev: Event)
      requires running
      requires ev.Progress? || ev.Answered? || ev.Rejected? || ev.RingTimeout? || ev.EarlyAudio? || ev.DtmfFromModem?
      modifies this
      ensures View() == Step(old(View()), ev)
    {
      hide OnAnswered, OnRejected, OnRingTimeout, UpgradeToEarlyMedia, SendDtmfInfo;
      match ev
      case Progress(_) =>
      case Answered(id, resp, audioOk, acceptOk) => DoAnswered(id, resp, audioOk, acceptOk);
      case Rejected(id, resp, answerable) => DoRejected(id, resp, answerable);
      case EarlyAudio(id, audioOk) => if call.Some? && call.value.callId == id { DoUpgradeToEarlyMedia(audioOk); }
      case DtmfFromModem(id) => if call.Some? && call.value.callId == id { DoSendDtmfInfo(); }
      case RingTimeout(id) => DoRingTimeout(id);
    }

    /** One turn of the select loop. */
    method DoStep(ev: Event)
      modifies this
      ensures View() == Step(old(View()), ev)
    {
      hide CheckMedia, TeardownCall;
      if !running { return; }
      if ev.Shutdown? {
        DoTeardownCall(200);
        running := false;
      } else if ev.Watchdog? {
        DoCheckMedia(ev.audioFailed, ev.silent);
      } else if ev.InviteRequest? || ev.ByeRequest? || ev.CancelRequest? || ev.InfoRequest? || ev.AckRequest? || ev.OtherRequest? {
        DoSipRequest(ev);
      } else if ev.ModemUp? || ev.ModemDown? || ev.CallAdded? || ev.CallDeleted? || ev.CallState? || ev.ModemDtmf? {
        DoModemEvent(ev);
      } else {
        DoInternal(ev);
      }
    }

    /** The select loop: under the environment assumptions every run keeps the invariant. */
    method Loop(evs: seq<Event>)
      requires View() == Init(cfg)
      requires EnvRun(Init(cfg), evs)
      modifies this
      ensures View() == Run(Init(cfg), evs) && Inv(View())
    {
      RunKeeps(cfg, evs);
      ghost var start := View();
      for i := 0 to |evs|
        invariant View() == Run(start, evs[..i])
      {
        assert evs[..i + 1][..i] == evs[..i] && evs[..i + 1][i] == evs[i];
        DoStep(evs[i]);
      }
      assert evs[..|evs|] == evs;
    }
  }
}
