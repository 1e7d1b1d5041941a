/**
 What one step of the gateway adds to the responses, the INFOs and the SDP answers of a run: an
 account kept over the trace, and the exact events on which it grows.
 */
module GatewayLedger {
  import opened Util
  import opened SdpModel
  import opened GatewayModel
  import opened GatewaySafety

  function Size(t: Trace): nat {
    match t
    case Start => 0
    case Then(before, _) => 1 + Size(before)
  }

  predicate IsResponse(o: Output) {
    o.Reply? || o.ReplySdp?
  }

  /** A dialog both sides know: our 2xx was sent, or theirs was acknowledged. */
  predicate Established(h: History, id: CallId) {
    && id in h.started
    && (h.started[id].role == ToSip ==> DialogOf(h, id).acked)
    && (h.started[id].role == FromSip ==> FinalsOf(h, h.started[id].rid) == [200])
  }

  predicate IsLate(h: History, o: Output) {
    IsResponse(o) && o.code < 200 && FinalsOf(h, o.rid) != []
  }

  predicate IsStray(h: History, o: Output) {
    o.SendInfo? && !Established(h, o.callId)
  }

  /**
   Positions of provisionals sent after the final and of INFOs outside an established dialog, the SDPs
   that answers were built from, in order, and the codes of all responses to `rid`.
   */
  datatype Ledger = Ledger(late: set<nat>, stray: set<nat>, answers: seq<Sdp>, replies: seq<nat>)

  function Entry(l: Ledger, h: History, o: Output, at: nat, rid: nat): Ledger {
    Ledger(l.late + (if IsLate(h, o) then {at} else {}),
           l.stray + (if IsStray(h, o) then {at} else {}),
           if o.ReplySdp? then l.answers + [o.offer] else l.answers,
           if IsResponse(o) && o.rid == rid then l.replies + [o.code] else l.replies)
  }

  function Book(t: Trace, rid: nat): Ledger {
    match t
    case Start => Ledger({}, {}, [], [])
    case Then(before, o) => Entry(Book(before, rid), Hist(before), o, Size(before), rid)
  }

  // ------------------------------------------------- what an event brings about

  /** The INVITE that sets up a call: accepted by every test, with a port bound and the leg dialled. */
  predicate TakesCall(s: State, ev: Event) {
    && ev.InviteRequest? && s.call.None?
    && Screen(s.modem, ev.req).Take? && ev.bound.Some? && ev.dialled.Some?
  }

  /** An INVITE with the Call-ID of a call that is not answered yet. */
  predicate RepeatsCall(s: State, ev: Event) {
    ev.InviteRequest? && s.call.Some? && !s.call.value.answered && ev.req.callId == Some(s.call.value.callId)
  }

  /** The re-INVITE is accepted: in dialog, above the stored sequence number, codec kept if media is offered. */
  predicate ReinviteAccepted(c: ActiveCall, req: Request) {
    && c.answered && InDialogOf(c, req)
    && (c.role == FromSip ==> !OptionLe(req.cseq, StoredSeqNo(c)))
    && (ReinviteOffer(req).Some? ==> PayloadType(c.codec) in ReinviteOffer(req).value.payloadTypes)
  }

  /** The SDP an event makes the current one of the call, if it does. */
  function NewRemote(s: State, ev: Event): Option<Sdp> {
    if !s.running then None
    else if TakesCall(s, ev) then ev.req.sdp
    else if ev.InviteRequest? && s.call.Some? && ReinviteAccepted(s.call.value, ev.req) then ReinviteOffer(ev.req)
    else if ev.Answered? && CallIdMatches(s, ev.callId) && ev.resp.sdp.Some? && HasMedia(ev.resp.sdp.value) then ev.resp.sdp
    else None
  }

  function Current(s: State, ev: Event): Option<Sdp> {
    if NewRemote(s, ev).Some? then NewRemote(s, ev)
    else if s.call.Some? then s.call.value.remoteSdp
    else None
  }

  /** The modem reports ringing on the leg of a received call that is answered and was never rung. */
  predicate RingsLate(s: State, ev: Event) {
    && s.running && ev.CallState? && ev.leg == Alerting && OwnsLeg(s, ev.path)
    && s.call.value.role == FromSip && s.call.value.answered && !s.call.value.ringingSent
  }

  /** A digit from the mobile side on a call that is not answered. */
  predicate StrayDigit(s: State, ev: Event) {
    && s.running
    && ((ev.ModemDtmf? && OwnsLeg(s, ev.path)) || (ev.DtmfFromModem? && CallIdMatches(s, ev.callId)))
    && !s.call.value.answered
  }

  predicate IsRequest(ev: Event) {
    ev.InviteRequest? || ev.ByeRequest? || ev.CancelRequest? || ev.InfoRequest? || ev.OtherRequest?
  }

  /** Not the request the call keeps. */
  predicate Elsewhere(s: State, rid: nat) {
    s.call.Some? ==> rid != s.call.value.invite.rid
  }

  /** A request that was delivered before and is not the one the call keeps. */
  predicate Bystander(s: State, rid: nat) {
    rid < s.nextRid && Elsewhere(s, rid)
  }

  // --------------------------------------------------------- handler by handler

  ghost predicate Same(s: State, r: State, rid: nat) {
    Book(r.trace, rid) == Book(s.trace, rid)
  }

  /** Outputs that are neither responses nor INFOs leave the account alone. */
  lemma Other(s: State, o: Output, rid: nat)
    requires !IsResponse(o) && !o.SendInfo?
    ensures Same(s, Emit(s, o), rid)
  {
  }

  /** So does a response to another request, final or to one that has no final yet. */
  lemma Answering(s: State, r: nat, verb: Method, code: nat, rid: nat)
    requires r != rid && (code >= 200 || FinalsOf(Hist(s.trace), r) == [])
    ensures Same(s, Emit(s, Reply(r, verb, code)), rid)
  {
    hide Hist, FinalsOf;
  }

  lemma HangupSame(s: State, rid: nat)
    ensures Same(s, HangupLeg(s), rid) && HangupLeg(s).call == s.call
  {
    hide Same;
    if s.call.Some? && s.call.value.mmPath.Some? {
      Other(s, Hangup(s.call.value.mmPath.value), rid);
    }
    SameSelf(s, rid);
  }

  lemma SameSelf(s: State, rid: nat)
    ensures Same(s, s, rid)
  {
  }

  lemma FinishSame(s: State, cause: Cause, rid: nat)
    ensures Same(s, FinishCall(HangupLeg(s), cause), rid)
  {
    hide Book, HangupLeg;
    HangupSame(s, rid);
    if s.call.Some? {
      var c := s.call.value;
      Other(HangupLeg(s), CallDropped(c.callId, c.role, c.invite.rid, cause), rid);
    }
  }

  lemma CancelSame(s: State, rid: nat)
    ensures Same(s, CancelOutgoingInvite(s), rid) && CancelOutgoingInvite(s).call == s.call
  {
    if s.call.Some? && s.call.value.invite.Sent? {
      Other(s, SendCancel(s.call.value.callId, Tx(s.call.value.invite.tx.branch, s.call.value.localCseq)), rid);
    }
  }

  lemma TeardownSame(s: State, code: nat, rid: nat)
    requires s.call.Some? ==> rid != s.call.value.invite.rid
    ensures Same(s, TeardownCall(s, code), rid)
  {
    hide Book, HangupLeg, FinishCall, CancelOutgoingInvite;
    if s.call.Some? {
      var c := s.call.value;
      if c.answered {
        Other(TakeTx(s), SendBye(c.callId, FreshTx(s)), rid);
      } else if c.role == FromSip {
        Answering(s, c.invite.rid, Invite, if code < 400 then 480 else code, rid);
      } else {
        CancelSame(s, rid);
      }
    }
    FinishSame(InformPeer(s, code), TornDown, rid);
  }

  lemma StartMediaSame(s: State, codec: Codec, audioOk: bool, rid: nat)
    ensures var r := StartMedia(s, codec, audioOk);
            && Same(s, r.s, rid) && r.s.call.Some? == s.call.Some? && Hist(r.s.trace).finals == Hist(s.trace).finals
            && (r.ok ==> s.call.Some? && r.s.call.value.invite == s.call.value.invite
                         && r.s.call.value.remoteSdp == s.call.value.remoteSdp && r.s.call.value.callId == s.call.value.callId)
  {
    if s.call.Some? {
      Other(s, MediaStarted(s.call.value.callId), rid);
    }
  }

  /** The stored INVITE, while it has no final response, may get a provisional or a final. */
  ghost predicate Owed(s: State, rid: nat) {
    s.call.Some? && rid != s.call.value.invite.rid && FinalsOf(Hist(s.trace), s.call.value.invite.rid) == []
  }

  /** The same, or with one more answer, built from `sdp`. */
  ghost predicate AtMostAnswers(s: State, r: State, rid: nat, sdp: Option<Sdp>) {
    var l, m := Book(s.trace, rid), Book(r.trace, rid);
    m == l || (sdp.Some? && m == l.(answers := l.answers + [sdp.value]))
  }

  lemma SdpAnswering(s: State, code: nat, rid: nat, answer: Sdp, offer: Sdp, pt: Option<nat>)
    requires Owed(s, rid)
    ensures var c := s.call.value;
            AtMostAnswers(s, Emit(s, ReplySdp(c.invite.rid, Invite, code, c.callId, answer, offer, pt)), rid, Some(offer))
  {
    hide Hist, FinalsOf;
  }

  lemma RespondSame(s: State, code: nat, audioOk: bool, rid: nat)
    requires Owed(s, rid)
    ensures AtMostAnswers(s, RespondWithMedia(s, code, audioOk).s, rid, s.call.value.remoteSdp)
  {
    hide Book, StartMedia, SdpModel.Answer;
    var c := s.call.value;
    StartMediaSame(s, c.codec, audioOk, rid);
    var started := if c.media.Some? then Outcome(true, s) else StartMedia(s, c.codec, audioOk);
    if c.remoteSdp.Some? && started.ok {
      var d := started.s.call.value;
      var offer := c.remoteSdp.value;
      var answer := SdpModel.Answer(offer, s.cfg.advertised, d.localRtpPort, c.codec, Some(s.cfg.dtmfPt), s.cfg.ptime);
      SdpAnswering(started.s, code, rid, answer, offer, if d.media.Some? then d.media.value.dtmfPt else None);
    }
  }

  lemma ProvisionalSame(s: State, code: nat, rid: nat)
    requires s.call.Some? ==> Owed(s, rid)
    ensures Same(s, SendProvisional(s, code), rid)
  {
    hide Book, Hist, FinalsOf;
    SameSelf(s, rid);
    if s.call.Some? {
      var c := s.call.value;
      Answering(SetCall(s, c.(ringingSent := c.ringingSent || code == 180)), c.invite.rid, Invite, code, rid);
    }
  }

  lemma OwedBeforeTheAnswer(s: State, rid: nat)
    requires Inv(s) && s.call.Some? && !s.call.value.answered && Elsewhere(s, rid)
    ensures Owed(s, rid)
  {
  }

  /** Ringing before the answer: a 180, with media or without. */
  lemma AlertingSame(s: State, audioOk: bool, rid: nat)
    requires Owed(s, rid)
    ensures Same(s, StartEarlyMedia(s, audioOk).s, rid)
    ensures !StartEarlyMedia(s, audioOk).ok ==> StartEarlyMedia(s, audioOk).s == s
  {
    hide Book, StartMedia, SendProvisional;
    var c := s.call.value;
    SameSelf(s, rid);
    StartMediaSame(s, c.codec, audioOk, rid);
    FailedStart(s, c.codec, audioOk);
    var up := if c.media.Some? then Outcome(true, s) else StartMedia(s, c.codec, audioOk);
    if up.ok {
      ProvisionalSame(up.s, 180, rid);
    }
  }

  lemma FailedStart(s: State, codec: Codec, audioOk: bool)
    ensures !StartMedia(s, codec, audioOk).ok ==> StartMedia(s, codec, audioOk).s == s
  {
  }

  /** Ringing after the answer: the 180 is the one output, and it is late. */
  lemma AlertingLate(s: State, audioOk: bool, rid: nat)
    requires Inv(s) && s.call.Some? && s.call.value.role == FromSip && s.call.value.answered && Elsewhere(s, rid)
    ensures var l := Book(s.trace, rid); var r := SendProvisional(s, 180);
            && Book(r.trace, rid) == l.(late := l.late + {Size(s.trace)}) && Size(r.trace) == Size(s.trace) + 1
    ensures StartEarlyMedia(s, audioOk) == Outcome(true, SendProvisional(s, 180))
  {
  }

  lemma AnsweredSame(s: State, audioOk: bool, rid: nat)
    requires Owed(s, rid)
    ensures AtMostAnswers(s, OnModemAnswered(s, audioOk), rid, s.call.value.remoteSdp)
  {
    hide Book, RespondWithMedia, TeardownCall;
    RespondSame(s, 200, audioOk, rid);
    var r := RespondWithMedia(s, 200, audioOk);
    FailedRespond(s, 200, audioOk);
    if s.call.value.role == FromSip && !r.ok {
      TeardownSame(r.s, 500, rid);
    }
  }

  lemma FailedRespond(s: State, code: nat, audioOk: bool)
    ensures !RespondWithMedia(s, code, audioOk).ok ==> RespondWithMedia(s, code, audioOk).s == s
  {
    hide SdpModel.Answer;
  }

  lemma CallStateBook(s: State, path: MmPath, leg: LegState, reason: Reason, audioOk: bool, rid: nat)
    requires Inv(s) && Elsewhere(s, rid) && OwnsLeg(s, path)
    ensures var ev := CallState(path, leg, reason, audioOk);
            var l, r := Book(s.trace, rid), OnCallState(s, path, leg, reason, audioOk);
            s.running ==> if RingsLate(s, ev) then Book(r.trace, rid) == l.(late := l.late + {Size(r.trace) - 1})
                          else AtMostAnswers(s, r, rid, s.call.value.remoteSdp)
  {
    hide Book, SendProvisional, StartEarlyMedia, OnModemAnswered, TeardownCall, Inv;
    var c := s.call.value;
    if !c.answered {
      OwedBeforeTheAnswer(s, rid);
    }
    match leg
    case Alerting =>
      if c.role == FromSip && !c.ringingSent {
        if c.answered {
          AlertingLate(s, audioOk, rid);
        } else {
          AlertingSame(s, audioOk, rid);
          ProvisionalSame(s, 180, rid);
        }
      }
    case Active => if !c.answered { AnsweredSame(s, audioOk, rid); }
    case Terminated => TeardownSame(s, match reason
                                       case RefusedOrBusy => 486
                                       case Failed => 500
                                       case NormalEnd => if c.answered then 200 else 480, rid);
    case OtherState =>
  }

  lemma InfoBook(s: State, rid: nat)
    requires Inv(s) && s.call.Some?
    ensures var l, r := Book(s.trace, rid), SendDtmfInfo(s);
            && Size(r.trace) == Size(s.trace) + 1
            && Book(r.trace, rid) == if s.call.value.answered then l else l.(stray := l.stray + {Size(s.trace)})
  {
    hide Lawful;
  }

  lemma CallAddedSame(s: State, path: MmPath, info: Option<CallInfo>, setup: Setup, rid: nat)
    ensures Same(s, OnCallAdded(s, path, info, setup), rid)
  {
    hide Book;
    SameSelf(s, rid);
    Other(s, DeleteCall(path), rid);
    Other(s, Hangup(path), rid);
    var s1 := Emit(s, OfferLeg(path));
    Other(s, OfferLeg(path), rid);
    Other(s1, Hangup(path), rid);
    if setup.SetupOk? {
      var s2 := TakeTx(s1).(nextRid := s.nextRid + 1);
      var started := CallStarted(setup.callId, ToSip, s.nextRid, setup.port, Pcmu);
      Other(s2, started, rid);
      Other(Emit(s2, started), SendInvite(setup.callId, FreshTx(s1)), rid);
    }
  }

  // -------------------------------------------------------------- requests

  lemma PlaceSame(s: State, r: nat, req: Request, codec: Codec, bound: Option<nat>, dialled: Option<MmPath>, tag: Tag, rid: nat)
    requires req.callId.Some? && r != rid
    ensures Same(s, PlaceCall(s, r, req, codec, bound, dialled, tag), rid)
  {
    hide Book;
    Answering(s, r, Invite, 500, rid);
    Answering(s, r, Invite, 503, rid);
    if bound.Some? && dialled.Some? {
      Other(s, Dial(dialled.value), rid);
      Other(Emit(s, Dial(dialled.value)), CallStarted(req.callId.value, FromSip, r, bound.value, codec), rid);
    }
  }

  lemma NewInviteSame(s: State, r: nat, req: Request, bound: Option<nat>, dialled: Option<MmPath>, tag: Tag, rid: nat)
    requires r != rid && FinalsOf(Hist(s.trace), r) == []
    ensures Same(s, OnNewInvite(s, r, req, bound, dialled, tag), rid)
  {
    hide Book, PlaceCall, Hist;
    match Screen(s.modem, req)
    case Refuse(code) =>
      ScreenRefusesFinally(s.modem, req);
      Answering(s, r, Invite, code, rid);
    case Take(codec) =>
      Answering(s, r, Invite, 100, rid);
      PlaceSame(Emit(s, Reply(r, Invite, 100)), r, req, codec, bound, dialled, tag, rid);
  }

  lemma ScreenRefusesFinally(modem: bool, req: Request)
    ensures Screen(modem, req).Refuse? ==> Screen(modem, req).code >= 400
  {
  }

  lemma ReinviteSame(s: State, r: nat, req: Request, rid: nat)
    requires r != rid && s.call.Some?
    ensures var c := s.call.value;
            var sdp := if ReinviteAccepted(c, req) && ReinviteOffer(req).Some? then ReinviteOffer(req) else c.remoteSdp;
            AtMostAnswers(s, OnReinvite(s, r, req), rid, sdp)
  {
    hide Book, ReinviteAnswer, InDialogOf, ReinviteOffer;
    var c, offer := s.call.value, ReinviteOffer(req);
    Answering(s, r, Invite, 491, rid);
    Answering(s, r, Invite, 481, rid);
    Answering(s, r, Invite, 488, rid);
    if ReinviteAccepted(c, req) {
      AnswerReinviteSame(s, r, offer, rid);
    }
  }

  lemma AnswerReinviteSame(s: State, r: nat, offer: Option<Sdp>, rid: nat)
    requires r != rid && s.call.Some?
    ensures AtMostAnswers(s, AnswerReinvite(s, r, offer), rid, if offer.Some? then offer else s.call.value.remoteSdp)
  {
    hide ReinviteAnswer, Hist;
  }

  lemma InviteSame(s: State, ev: Event, rid: nat)
    requires Inv(s) && ev.InviteRequest? && Elsewhere(s, rid) && rid != s.nextRid && s.running
    ensures AtMostAnswers(s, OnInvite(s, ev.req, ev.bound, ev.dialled, ev.tag, ev.audioOk), rid, Current(s, ev))
  {
    hide Book, OnNewInvite, OnReinvite, RespondWithMedia, SendProvisional, Hist, Inv, Screen, ReinviteAccepted, ReinviteOffer;
    var s1 := s.(nextRid := s.nextRid + 1);
    NoFinalYet(s);
    if s.call.None? {
      NewInviteSame(s1, s.nextRid, ev.req, ev.bound, ev.dialled, ev.tag, rid);
    } else if ev.req.callId != Some(s.call.value.callId) {
      OtherCallId(s.call.value, ev.req);
      Answering(s1, s.nextRid, Invite, 486, rid);
    } else if s.call.value.answered {
      ReinviteSame(s1, s.nextRid, ev.req, rid);
    } else {
      OwedBeforeTheAnswer(s, rid);
      NotAccepted(s.call.value, ev.req);
      RespondSame(s1, 183, ev.audioOk, rid);
      ProvisionalSame(s1, 180, rid);
    }
  }

  lemma NotAccepted(c: ActiveCall, req: Request)
    ensures !c.answered ==> !ReinviteAccepted(c, req)
  {
  }

  lemma OtherCallId(c: ActiveCall, req: Request)
    ensures req.callId != Some(c.callId) ==> !ReinviteAccepted(c, req)
  {
  }

  lemma NoFinalYet(s: State)
    requires Inv(s)
    ensures FinalsOf(Hist(s.trace), s.nextRid) == []
  {
    hide Lawful;
  }

  lemma ByeSame(s: State, req: Request, rid: nat)
    requires Elsewhere(s, rid) && rid != s.nextRid
    ensures Same(s, OnBye(s, req), rid)
  {
    hide Book, FinishCall, HangupLeg, InDialogOf;
    var s1 := s.(nextRid := s.nextRid + 1);
    Answering(s1, s.nextRid, Bye, 200, rid);
    Answering(s1, s.nextRid, Bye, 481, rid);
    FinishSame(Emit(s1, Reply(s.nextRid, Bye, 200)), SipBye, rid);
  }

  lemma CancelRequestSame(s: State, req: Request, rid: nat)
    requires Elsewhere(s, rid) && rid != s.nextRid
    ensures Same(s, OnCancel(s, req), rid)
  {
    hide Book, FinishCall, HangupLeg;
    var s1 := s.(nextRid := s.nextRid + 1);
    Answering(s1, s.nextRid, Cancel, 200, rid);
    var s2 := Emit(s1, Reply(s.nextRid, Cancel, 200));
    if s.call.Some? {
      Answering(s2, s.call.value.invite.rid, Invite, 487, rid);
      FinishSame(Emit(s2, Reply(s.call.value.invite.rid, Invite, 487)), SipCancel, rid);
    }
  }

  lemma OtherSame(s: State, verb: Method, code: nat, rid: nat)
    requires rid != s.nextRid && code >= 200
    ensures Same(s, OnOther(s, verb, code), rid)
  {
    hide Book;
    Answering(s.(nextRid := s.nextRid + 1), s.nextRid, verb, code, rid);
  }

  // -------------------------------------------------------- responses to ours

  lemma RejectedSame(s: State, id: CallId, resp: Response, answerable: bool, rid: nat)
    ensures Same(s, OnRejected(s, id, resp, answerable), rid)
  {
    hide Book, FinishCall, HangupLeg;
    SameSelf(s, rid);
    if CallIdMatches(s, id) {
      var s1 := TaskEnded(s);
      SameSelf(s1, rid);
      var c := s1.call.value;
      if c.invite.Sent? {
        Other(s1, SendFailureAck(c.callId, Tx(c.invite.tx.branch, c.localCseq)), rid);
      }
      var s2 := AckFailure(s1);
      Other(TakeTx(s2), SendInvite(c.callId, FreshTx(s2)), rid);
      FinishSame(s2, SipRejected, rid);
    }
  }

  lemma RingTimeoutSame(s: State, id: CallId, rid: nat)
    ensures Same(s, OnRingTimeout(s, id), rid)
  {
    hide Book, FinishCall, HangupLeg, CancelOutgoingInvite;
    SameSelf(s, rid);
    if CallIdMatches(s, id) {
      CancelSame(TaskEnded(s), rid);
      FinishSame(CancelOutgoingInvite(TaskEnded(s)), RingTimedOut, rid);
    }
  }

  lemma ConnectSame(s: State, codec: Codec, audioOk: bool, acceptOk: bool, rid: nat)
    requires s.call.Some? && rid != s.call.value.invite.rid
    ensures Same(s, ConnectLeg(s, codec, audioOk, acceptOk), rid)
  {
    hide Book, TeardownCall, StartMedia;
    StartMediaSame(s, codec, audioOk, rid);
    FailedStart(s, codec, audioOk);
    var r := StartMedia(s, codec, audioOk);
    TeardownSame(r.s, 500, rid);
    if r.ok && r.s.call.value.mmPath.Some? {
      var o := Accept(r.s.call.value.callId, r.s.call.value.mmPath.value);
      Other(r.s, o, rid);
      TeardownSame(Emit(r.s, o), 500, rid);
    }
  }

  lemma AnsweredCallSame(s: State, id: CallId, resp: Response, audioOk: bool, acceptOk: bool, rid: nat)
    requires Elsewhere(s, rid)
    ensures Same(s, OnAnswered(s, id, resp, audioOk, acceptOk), rid)
  {
    hide Book, TeardownCall, ConnectLeg, Negotiate, HasMedia;
    SameSelf(s, rid);
    if CallIdMatches(s, id) {
      var s1 := TaskEnded(s);
      Other(s1.(nextBranch := s1.nextBranch + 1), SendAck(id, Tx(s1.nextBranch, s1.call.value.localCseq)), rid);
      var s2 := AckAnswer(s1, resp);
      TeardownSame(s2, 200, rid);
      if resp.sdp.Some? {
        var n := Negotiate(resp.sdp.value.payloadTypes);
        var codec := if n.Some? then n.value else Pcmu;
        ConnectSame(SetCall(s2, s2.call.value.(codec := codec, remoteSdp := resp.sdp)), codec, audioOk, acceptOk, rid);
      }
    }
  }

  lemma UpgradeSame(s: State, audioOk: bool, rid: nat)
    requires Inv(s) && s.call.Some? && Elsewhere(s, rid)
    ensures AtMostAnswers(s, UpgradeToEarlyMedia(s, audioOk), rid, s.call.value.remoteSdp)
  {
    hide Book, RespondWithMedia, Inv;
    SameSelf(s, rid);
    if !s.call.value.answered {
      OwedBeforeTheAnswer(s, rid);
      RespondSame(s, 183, audioOk, rid);
    }
  }

  // ----------------------------------------------------------------- every step

  lemma ModemBook(s: State, ev: Event, rid: nat)
    requires Inv(s) && s.running && Elsewhere(s, rid)
    requires ev.ModemUp? || ev.ModemDown? || ev.CallAdded? || ev.CallDeleted? || ev.CallState? || ev.ModemDtmf? || ev.Watchdog? || ev.Shutdown?
    ensures Booked(s, ev, rid)
  {
    hide Book, OnCallAdded, OnCallState, SendDtmfInfo, TeardownCall, Inv;
    SameSelf(s, rid);
    match ev
    case ModemUp =>
    case ModemDown =>
      Other(s.(modem := false), ModemGone, rid);
      TeardownSame(Emit(s.(modem := false), ModemGone), 503, rid);
    case CallAdded(path, info, setup) => CallAddedSame(s, path, info, setup, rid);
    case CallDeleted(path) => TeardownSame(s, 200, rid);
    case CallState(path, leg, reason, audioOk) =>
      if OwnsLeg(s, path) { CallStateBook(s, path, leg, reason, audioOk, rid); } else { NotOurs(s, path, leg, reason, audioOk); }
    case ModemDtmf(path) => if OwnsLeg(s, path) { InfoBook(s, rid); }
    case Watchdog(_, _) => TeardownSame(s, 200, rid);
    case Shutdown => TeardownSame(s, 200, rid);
  }

  lemma NotOurs(s: State, path: MmPath, leg: LegState, reason: Reason, audioOk: bool)
    ensures !OwnsLeg(s, path) ==> OnCallState(s, path, leg, reason, audioOk) == s
  {
  }

  lemma SipBook(s: State, ev: Event, rid: nat)
    requires Inv(s) && s.running && Elsewhere(s, rid) && (IsRequest(ev) ==> rid != s.nextRid)
    requires !(ev.ModemUp? || ev.ModemDown? || ev.CallAdded? || ev.CallDeleted? || ev.CallState? || ev.ModemDtmf? || ev.Watchdog? || ev.Shutdown?)
    ensures Booked(s, ev, rid)
  {
    hide Book, OnInvite, OnBye, OnCancel, OnOther, InfoCode, OnAnswered, OnRejected, OnRingTimeout, UpgradeToEarlyMedia, SendDtmfInfo, Inv;
    SameSelf(s, rid);
    match ev
    case InviteRequest(_, _, _, _, _) => InviteSame(s, ev, rid);
    case ByeRequest(req) => ByeSame(s, req, rid);
    case CancelRequest(req) => CancelRequestSame(s, req, rid);
    case InfoRequest(req, digits, delivered) =>
      InfoIsFinal(s, req, digits, delivered);
      OtherSame(s, Info, InfoCode(s, req, digits, delivered), rid);
    case AckRequest =>
    case OtherRequest => OtherSame(s, Method.Other, 405, rid);
    case Progress(_) =>
    case Answered(id, resp, audioOk, acceptOk) => AnsweredCallSame(s, id, resp, audioOk, acceptOk, rid);
    case Rejected(id, resp, answerable) => RejectedSame(s, id, resp, answerable, rid);
    case RingTimeout(id) => RingTimeoutSame(s, id, rid);
    case EarlyAudio(id, audioOk) => if CallIdMatches(s, id) { UpgradeSame(s, audioOk, rid); }
    case DtmfFromModem(id) => if CallIdMatches(s, id) { InfoBook(s, rid); }
  }

  lemma InfoIsFinal(s: State, req: Request, digits: Option<string>, delivered: bool)
    ensures InfoCode(s, req, digits, delivered) >= 200
  {
  }

  /** The account after a step: a late ring and a stray digit add their last output, others at most one answer. */
  ghost predicate Booked(s: State, ev: Event, rid: nat) {
    var l, r := Book(s.trace, rid), Step(s, ev);
    if RingsLate(s, ev) then Book(r.trace, rid) == l.(late := l.late + {Size(r.trace) - 1})
    else if StrayDigit(s, ev) then Book(r.trace, rid) == l.(stray := l.stray + {Size(r.trace) - 1})
    else AtMostAnswers(s, r, rid, Current(s, ev))
  }

  lemma StepBooks(s: State, ev: Event, rid: nat)
    requires Inv(s) && Elsewhere(s, rid) && (IsRequest(ev) ==> rid != s.nextRid)
    ensures Booked(s, ev, rid)
  {
    hide Booked;
    if !s.running {
      StoppedBook(s, ev, rid);
    } else if ev.ModemUp? || ev.ModemDown? || ev.CallAdded? || ev.CallDeleted? || ev.CallState? || ev.ModemDtmf? || ev.Watchdog? || ev.Shutdown? {
      ModemBook(s, ev, rid);
    } else {
      SipBook(s, ev, rid);
    }
  }

  lemma StoppedBook(s: State, ev: Event, rid: nat)
    requires !s.running
    ensures Booked(s, ev, rid)
  {
  }

  // ------------------------------------------------------- which call, which SDP

  /** The call a step leaves is the one it found, or one for the request that arrived; its SDP is the current one. */
  ghost predicate Kept(s: State, ev: Event, r: State) {
    && s.nextRid <= r.nextRid
    && (s.running && IsRequest(ev) ==> r.nextRid == s.nextRid + 1)
    && (r.call.Some? ==>
          && ((s.call.Some? && r.call.value.invite.rid == s.call.value.invite.rid) || s.nextRid == r.call.value.invite.rid < r.nextRid)
          && (r.call.value.remoteSdp.Some? ==> r.call.value.remoteSdp == Current(s, ev)))
  }

  lemma TeardownDrops(s: State, code: nat)
    ensures TeardownCall(s, code).call.None? && TeardownCall(s, code).nextRid == s.nextRid
  {
  }

  lemma FinishDrops(s: State, cause: Cause)
    ensures FinishCall(HangupLeg(s), cause).call.None? && FinishCall(HangupLeg(s), cause).nextRid == s.nextRid
  {
  }

  /** Media, ringing and the early 183 leave the call's identity and SDP alone. */
  predicate Alike(s: State, r: State) {
    && r.nextRid == s.nextRid
    && (r.call.Some? ==> s.call.Some? && r.call.value.invite.rid == s.call.value.invite.rid && r.call.value.remoteSdp == s.call.value.remoteSdp)
  }

  lemma RespondAlike(s: State, code: nat, audioOk: bool)
    ensures Alike(s, RespondWithMedia(s, code, audioOk).s) && Alike(s, StartEarlyMedia(s, audioOk).s) && Alike(s, SendProvisional(s, code))
    ensures Alike(s, SendProvisional(StartEarlyMedia(s, audioOk).s, code))
  {
    hide SdpModel.Answer;
  }

  lemma CallStateAlike(s: State, path: MmPath, leg: LegState, reason: Reason, audioOk: bool)
    ensures Alike(s, OnCallState(s, path, leg, reason, audioOk))
  {
    hide RespondWithMedia, StartEarlyMedia, SendProvisional, TeardownCall;
    RespondAlike(s, 180, audioOk);
    RespondAlike(s, 200, audioOk);
    TeardownDrops(s, 486);
    TeardownDrops(s, 500);
    TeardownDrops(s, 200);
    TeardownDrops(s, 480);
    TeardownDrops(RespondWithMedia(s, 200, audioOk).s, 500);
  }

  lemma ModemKept(s: State, ev: Event)
    requires s.running
    requires ev.ModemUp? || ev.ModemDown? || ev.CallAdded? || ev.CallDeleted? || ev.CallState? || ev.ModemDtmf? || ev.Watchdog? || ev.Shutdown?
    ensures Kept(s, ev, Step(s, ev))
  {
    hide OnCallState, TeardownCall;
    TeardownDrops(s, 200);
    match ev
    case ModemUp =>
    case ModemDown => TeardownDrops(Emit(s.(modem := false), ModemGone), 503);
    case CallAdded(_, _, _) =>
    case CallDeleted(_) =>
    case CallState(path, leg, reason, audioOk) => CallStateAlike(s, path, leg, reason, audioOk);
    case ModemDtmf(_) =>
    case Watchdog(_, _) =>
    case Shutdown =>
  }

  lemma NewInviteKept(s: State, ev: Event)
    requires s.running && ev.InviteRequest? && s.call.None?
    ensures Kept(s, ev, OnNewInvite(s.(nextRid := s.nextRid + 1), s.nextRid, ev.req, ev.bound, ev.dialled, ev.tag))
  {
    hide Negotiate;
  }

  lemma ReinviteKept(s: State, ev: Event)
    requires s.running && ev.InviteRequest? && s.call.Some?
    ensures Kept(s, ev, OnReinvite(s.(nextRid := s.nextRid + 1), s.nextRid, ev.req))
  {
    hide ReinviteAnswer, InDialogOf, ReinviteOffer;
  }

  lemma InviteKept(s: State, ev: Event)
    requires s.running && ev.InviteRequest?
    ensures Kept(s, ev, OnInvite(s, ev.req, ev.bound, ev.dialled, ev.tag, ev.audioOk))
  {
    hide OnNewInvite, OnReinvite, RespondWithMedia, SendProvisional, ReinviteAccepted, ReinviteOffer;
    var s1 := s.(nextRid := s.nextRid + 1);
    if s.call.None? {
      NewInviteKept(s, ev);
    } else if ev.req.callId != Some(s.call.value.callId) {
      OtherCallId(s.call.value, ev.req);
    } else if s.call.value.answered {
      ReinviteKept(s, ev);
    } else {
      NotAccepted(s.call.value, ev.req);
      RespondAlike(s1, 183, ev.audioOk);
      RespondAlike(s1, 180, ev.audioOk);
    }
  }

  lemma ConnectAlike(s: State, codec: Codec, audioOk: bool, acceptOk: bool)
    ensures Alike(s, ConnectLeg(s, codec, audioOk, acceptOk))
  {
    hide TeardownCall, StartMedia;
    MediaAlike(s, codec, audioOk);
    var r := StartMedia(s, codec, audioOk);
    TeardownDrops(r.s, 500);
    if r.s.call.Some? && r.s.call.value.mmPath.Some? {
      TeardownDrops(Emit(r.s, Accept(r.s.call.value.callId, r.s.call.value.mmPath.value)), 500);
    }
  }

  lemma MediaAlike(s: State, codec: Codec, audioOk: bool)
    ensures Alike(s, StartMedia(s, codec, audioOk).s)
  {
  }

  lemma AnsweredKept(s: State, ev: Event)
    requires s.running && ev.Answered?
    ensures Kept(s, ev, OnAnswered(s, ev.callId, ev.resp, ev.audioOk, ev.acceptOk))
  {
    hide TeardownCall, ConnectLeg, Negotiate, HasMedia;
    if CallIdMatches(s, ev.callId) {
      var s1 := AckAnswer(TaskEnded(s), ev.resp);
      TeardownDrops(s1, 200);
      if ev.resp.sdp.Some? {
        var n := Negotiate(ev.resp.sdp.value.payloadTypes);
        var codec := if n.Some? then n.value else Pcmu;
        ConnectAlike(SetCall(s1, s1.call.value.(codec := codec, remoteSdp := ev.resp.sdp)), codec, ev.audioOk, ev.acceptOk);
      }
    }
  }

  lemma EndKept(s: State, req: Request)
    ensures OnBye(s, req).nextRid == s.nextRid + 1 && (OnBye(s, req).call.None? || OnBye(s, req).call == s.call)
    ensures OnCancel(s, req).nextRid == s.nextRid + 1 && (OnCancel(s, req).call.None? || OnCancel(s, req).call == s.call)
  {
    hide InDialogOf;
  }

  lemma RejectedAlike(s: State, id: CallId, resp: Response, answerable: bool)
    ensures Alike(s, OnRejected(s, id, resp, answerable)) && Alike(s, OnRingTimeout(s, id))
  {
  }

  lemma UpgradeAlike(s: State, audioOk: bool)
    ensures Alike(s, UpgradeToEarlyMedia(s, audioOk))
  {
    hide RespondWithMedia;
    RespondAlike(s, 183, audioOk);
  }

  lemma SipKept(s: State, ev: Event)
    requires s.running
    requires !(ev.ModemUp? || ev.ModemDown? || ev.CallAdded? || ev.CallDeleted? || ev.CallState? || ev.ModemDtmf? || ev.Watchdog? || ev.Shutdown?)
    ensures Kept(s, ev, Step(s, ev))
  {
    hide OnInvite, OnAnswered, OnBye, OnCancel, OnRejected, OnRingTimeout, UpgradeToEarlyMedia, InfoCode;
    match ev
    case InviteRequest(_, _, _, _, _) => InviteKept(s, ev);
    case Answered(_, _, _, _) => AnsweredKept(s, ev);
    case ByeRequest(req) => EndKept(s, req);
    case CancelRequest(req) => EndKept(s, req);
    case Rejected(id, resp, answerable) => RejectedAlike(s, id, resp, answerable);
    case RingTimeout(id) => RejectedAlike(s, id, Response(486, false, None, None), false);
    case EarlyAudio(_, audioOk) => UpgradeAlike(s, audioOk);
    case _ =>
  }

  lemma StepKeepsTheCall(s: State, ev: Event)
    ensures Kept(s, ev, Step(s, ev))
  {
    hide Kept;
    if !s.running {
      StoppedKept(s, ev);
    } else if ev.ModemUp? || ev.ModemDown? || ev.CallAdded? || ev.CallDeleted? || ev.CallState? || ev.ModemDtmf? || ev.Watchdog? || ev.Shutdown? {
      ModemKept(s, ev);
    } else {
      SipKept(s, ev);
    }
  }

  lemma StoppedKept(s: State, ev: Event)
    requires !s.running
    ensures Kept(s, ev, Step(s, ev))
  {
  }

  /** A bystander stays one. */
  lemma BystanderStays(s: State, ev: Event, rid: nat)
    requires Bystander(s, rid)
    ensures Bystander(Step(s, ev), rid)
  {
    hide Step;
    StepKeepsTheCall(s, ev);
  }
}
