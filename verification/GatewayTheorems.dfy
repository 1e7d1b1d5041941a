/**
 What the invariant means for the outputs of a run, stated on the plain sequence of
 outputs with no reference to the observer's bookkeeping.
 */
module GatewayTheorems {
  import opened Util
  import opened SdpModel
  import opened GatewayModel
  import opened GatewaySafety
  import opened GatewayLedger

  function Outputs(t: Trace): seq<Output> {
    match t
    case Start => []
    case Then(before, o) => Outputs(before) + [o]
  }

  // ---------------------------------------------------- notions on the sequence

  predicate StartsLeg(o: Output, p: MmPath) {
    o == Dial(p) || o == OfferLeg(p)
  }

  predicate EndsLeg(o: Output, p: MmPath) {
    o == Hangup(p) || o == ModemGone
  }

  /** Some leg on `p` was started and neither hung up nor lost since. */
  ghost predicate StillUp(outs: seq<Output>, p: MmPath) {
    exists i :: 0 <= i < |outs| && StartsLeg(outs[i], p) && forall j :: i < j < |outs| ==> !EndsLeg(outs[j], p)
  }

  predicate IsFinalTo(o: Output, rid: nat) {
    (o.Reply? || o.ReplySdp?) && o.rid == rid && o.code >= 200
  }

  /** Final response codes sent to request `rid`, in order. */
  function FinalCodes(outs: seq<Output>, rid: nat): seq<nat> {
    if outs == [] then []
    else
      var o := outs[|outs| - 1];
      FinalCodes(outs[..|outs| - 1], rid) + if IsFinalTo(o, rid) then [o.code] else []
  }

  /** The INVITEs sent for a call, in order. */
  function InvitesOf(outs: seq<Output>, id: CallId): seq<Tx> {
    if outs == [] then []
    else
      var o := outs[|outs| - 1];
      InvitesOf(outs[..|outs| - 1], id) + if o.SendInvite? && o.callId == id then [o.tx] else []
  }

  predicate Acked(outs: seq<Output>, id: CallId) {
    exists o <- outs :: o.SendAck? && o.callId == id
  }

  predicate Accepted(outs: seq<Output>, id: CallId) {
    exists o <- outs :: o.Accept? && o.callId == id
  }

  predicate MediaUp(outs: seq<Output>, id: CallId) {
    exists o <- outs :: o.MediaStarted? && o.callId == id
  }

  predicate Byed(outs: seq<Output>, id: CallId) {
    exists o <- outs :: o.SendBye? && o.callId == id
  }

  predicate Cancelled(outs: seq<Output>, id: CallId) {
    exists o <- outs :: o.SendCancel? && o.callId == id
  }

  // ------------------------------------------------- the history means just that

  lemma AppendFacts(outs: seq<Output>, o: Output)
    ensures (outs + [o])[..|outs|] == outs
    ensures forall x :: x in outs + [o] <==> x in outs || x == o
  {
  }

  lemma StillUpAppend(outs: seq<Output>, o: Output, p: MmPath)
    ensures StillUp(outs + [o], p) <==> StartsLeg(o, p) || (!EndsLeg(o, p) && StillUp(outs, p))
  {
    var all := outs + [o];
    if StartsLeg(o, p) {
      assert StartsLeg(all[|outs|], p);
    } else if EndsLeg(o, p) {
      assert EndsLeg(all[|outs|], p);
    } else {
      if i :| 0 <= i < |outs| && StartsLeg(outs[i], p) && forall j :: i < j < |outs| ==> !EndsLeg(outs[j], p) {
        assert StartsLeg(all[i], p);
      }
      if i :| 0 <= i < |all| && StartsLeg(all[i], p) && forall j :: i < j < |all| ==> !EndsLeg(all[j], p) {
        assert StartsLeg(outs[i], p);
        assert forall j :: i < j < |outs| ==> outs[j] == all[j];
      }
    }
  }

  lemma RecordLegs(h: History, o: Output, p: MmPath)
    ensures p in Record(h, o).openLegs <==> StartsLeg(o, p) || (!EndsLeg(o, p) && p in h.openLegs)
  {
    hide FinalsOf, DialogOf;
  }

  lemma {:induction false} OpenLegsMean(t: Trace, p: MmPath)
    ensures p in Hist(t).openLegs <==> StillUp(Outputs(t), p)
  {
    hide Record, StillUp;
    if t.Then? {
      OpenLegsMean(t.before, p);
      StillUpAppend(Outputs(t.before), t.last, p);
      RecordLegs(Hist(t.before), t.last, p);
    } else {
      NoLegYet(p);
    }
  }

  lemma NoLegYet(p: MmPath)
    ensures !StillUp([], p)
  {
  }

  lemma FinalsAppend(outs: seq<Output>, o: Output, rid: nat)
    ensures FinalCodes(outs + [o], rid) == FinalCodes(outs, rid) + if IsFinalTo(o, rid) then [o.code] else []
  {
    AppendFacts(outs, o);
  }

  lemma RecordFinals(h: History, o: Output, rid: nat)
    ensures FinalsOf(Record(h, o), rid) == FinalsOf(h, rid) + if IsFinalTo(o, rid) then [o.code] else []
  {
  }

  lemma {:induction false} FinalsMean(t: Trace, rid: nat)
    ensures FinalsOf(Hist(t), rid) == FinalCodes(Outputs(t), rid)
  {
    if t.Then? {
      FinalsMean(t.before, rid);
      FinalsAppend(Outputs(t.before), t.last, rid);
      RecordFinals(Hist(t.before), t.last, rid);
    }
  }

  lemma FlagsAppend(outs: seq<Output>, o: Output, id: CallId)
    ensures Acked(outs + [o], id) <==> Acked(outs, id) || (o.SendAck? && o.callId == id)
    ensures Accepted(outs + [o], id) <==> Accepted(outs, id) || (o.Accept? && o.callId == id)
    ensures MediaUp(outs + [o], id) <==> MediaUp(outs, id) || (o.MediaStarted? && o.callId == id)
    ensures Byed(outs + [o], id) <==> Byed(outs, id) || (o.SendBye? && o.callId == id)
    ensures Cancelled(outs + [o], id) <==> Cancelled(outs, id) || (o.SendCancel? && o.callId == id)
  {
    AppendFacts(outs, o);
  }

  lemma InvitesAppend(outs: seq<Output>, o: Output, id: CallId)
    ensures InvitesOf(outs + [o], id) == InvitesOf(outs, id) + if o.SendInvite? && o.callId == id then [o.tx] else []
  {
    AppendFacts(outs, o);
  }

  /** What one output adds to what is known of a dialog. */
  function Noted(d: Dialog, o: Output): Dialog {
    match o
    case SendInvite(_, tx) => d.(invites := d.invites + [tx])
    case SendAck(_, _) => d.(acked := true)
    case MediaStarted(_) => d.(mediaUp := true)
    case Accept(_, _) => d.(accepted := true)
    case SendBye(_, _) => d.(ended := true)
    case SendCancel(_, _) => d.(cancelled := true)
    case _ => d
  }

  predicate Concerns(o: Output, id: CallId) {
    (o.SendInvite? || o.SendAck? || o.MediaStarted? || o.Accept? || o.SendBye? || o.SendCancel?) && o.callId == id
  }

  lemma RecordNotes(h: History, o: Output, id: CallId)
    ensures DialogOf(Record(h, o), id) == if Concerns(o, id) then Noted(DialogOf(h, id), o) else DialogOf(h, id)
  {
    hide FinalsOf;
  }

  lemma RecordDialog(h: History, o: Output, id: CallId)
    ensures var d := DialogOf(h, id);
            DialogOf(Record(h, o), id) ==
            Dialog(d.invites + (if o.SendInvite? && o.callId == id then [o.tx] else []),
                   d.acked || (o.SendAck? && o.callId == id),
                   d.mediaUp || (o.MediaStarted? && o.callId == id),
                   d.accepted || (o.Accept? && o.callId == id),
                   d.ended || (o.SendBye? && o.callId == id),
                   d.cancelled || (o.SendCancel? && o.callId == id))
  {
    hide DialogOf, Record;
    RecordNotes(h, o, id);
  }

  lemma {:induction false} InvitesMean(t: Trace, id: CallId)
    ensures DialogOf(Hist(t), id).invites == InvitesOf(Outputs(t), id)
  {
    if t.Then? {
      InvitesMean(t.before, id);
      InvitesAppend(Outputs(t.before), t.last, id);
      RecordDialog(Hist(t.before), t.last, id);
    }
  }

  lemma {:induction false} FlagsMean(t: Trace, id: CallId)
    ensures DialogOf(Hist(t), id).acked <==> Acked(Outputs(t), id)
    ensures DialogOf(Hist(t), id).accepted <==> Accepted(Outputs(t), id)
    ensures DialogOf(Hist(t), id).mediaUp <==> MediaUp(Outputs(t), id)
    ensures DialogOf(Hist(t), id).ended <==> Byed(Outputs(t), id)
    ensures DialogOf(Hist(t), id).cancelled <==> Cancelled(Outputs(t), id)
  {
    if t.Then? {
      FlagsMean(t.before, id);
      FlagsAppend(Outputs(t.before), t.last, id);
      RecordDialog(Hist(t.before), t.last, id);
    }
  }

  lemma DialogsMean(t: Trace, id: CallId)
    ensures DialogOf(Hist(t), id) ==
            Dialog(InvitesOf(Outputs(t), id), Acked(Outputs(t), id), MediaUp(Outputs(t), id),
                   Accepted(Outputs(t), id), Byed(Outputs(t), id), Cancelled(Outputs(t), id))
  {
    InvitesMean(t, id);
    FlagsMean(t, id);
  }

  lemma {:induction false} StartedMean(t: Trace, id: CallId)
    ensures id in Hist(t).started ==>
              var s := Hist(t).started[id];
              CallStarted(id, s.role, s.rid, s.port, s.codec) in Outputs(t)
  {
    if t.Then? {
      StartedMean(t.before, id);
    }
  }

  lemma {:induction false} NumbersMean(t: Trace)
    requires Lawful(t)
    ensures forall o <- Outputs(t) :: o.SendInvite? || o.SendBye? || o.SendInfo? ==>
              o.tx.branch in Hist(t).branches && o.tx.cseq <= Hist(t).lastCseq
  {
    if t.Then? {
      NumbersMean(t.before);
    }
  }

  /** The trace as it stood just before its `k`-th output. */
  function Cut(t: Trace, k: nat): Trace
    requires k < Size(t)
    decreases t
  {
    if k == Size(t) - 1 then t else Cut(t.before, k)
  }

  lemma {:induction false} CutLawful(t: Trace, k: nat)
    requires k < Size(t) && Lawful(t)
    ensures var c := Cut(t, k);
            && c.Then? && Lawful(c.before) && Permitted(Hist(c.before), c.last)
            && |Outputs(t)| == Size(t)
            && c.last == Outputs(t)[k] && Outputs(c.before) == Outputs(t)[..k]
    decreases t
  {
    SizeIsLength(t);
    if k < Size(t) - 1 {
      CutLawful(t.before, k);
      assert Outputs(t)[..k] == Outputs(t.before)[..k];
    } else {
      assert Outputs(t)[..k] == Outputs(t.before);
    }
  }

  lemma {:induction false} SizeIsLength(t: Trace)
    ensures |Outputs(t)| == Size(t)
  {
    if t.Then? {
      SizeIsLength(t.before);
    }
  }

  // --------------------------------------------------------------- the theorems

  /** A run from start-up under the environment assumptions, and what it put out. */
  ghost predicate RunOf(cfg: Config, evs: seq<Event>, s: State, outs: seq<Output>) {
    EnvRun(Init(cfg), evs) && s == Run(Init(cfg), evs) && outs == Outputs(s.trace)
  }

  lemma LawfulRun(s: State)
    requires Inv(s)
    ensures Lawful(s.trace)
  {
  }

  /**
   No stranded mobile leg: whatever was dialled or offered to SIP is the leg of the one
   current call, or was hung up afterwards, or the modem went away afterwards.
   */
  lemma NoStrandedLeg(cfg: Config, evs: seq<Event>, s: State, outs: seq<Output>, i: nat, p: MmPath)
    requires RunOf(cfg, evs, s, outs) && i < |outs| && StartsLeg(outs[i], p)
    ensures (s.call.Some? && s.call.value.mmPath == Some(p)) || exists j :: i < j < |outs| && EndsLeg(outs[j], p)
  {
    RunKeeps(cfg, evs);
    OpenLegsMean(s.trace, p);
  }

  /** ... and conversely the leg of the current call has not been hung up behind its back. */
  lemma CurrentLegIsUp(cfg: Config, evs: seq<Event>, s: State, outs: seq<Output>)
    requires RunOf(cfg, evs, s, outs) && s.call.Some?
    ensures s.call.value.mmPath.Some? && StillUp(outs, s.call.value.mmPath.value)
  {
    RunKeeps(cfg, evs);
    OpenLegsMean(s.trace, s.call.value.mmPath.value);
  }

  /** No run dials or offers a leg while another one is up: one call at a time. */
  lemma OneLegAtATime(cfg: Config, evs: seq<Event>, s: State, outs: seq<Output>, k: nat, p: MmPath, q: MmPath)
    requires RunOf(cfg, evs, s, outs) && k < |outs| && StartsLeg(outs[k], p)
    ensures !StillUp(outs[..k], q)
  {
    RunKeeps(cfg, evs);
    SizeIsLength(s.trace);
    CutLawful(s.trace, k);
    OpenLegsMean(Cut(s.trace, k).before, q);
  }

  /** No request ever gets two final responses. */
  lemma AtMostOneFinal(cfg: Config, evs: seq<Event>, s: State, outs: seq<Output>, rid: nat)
    requires RunOf(cfg, evs, s, outs)
    ensures |FinalCodes(outs, rid)| <= 1
  {
    RunKeeps(cfg, evs);
    LawfulFinals(s.trace, rid);
    FinalsMean(s.trace, rid);
  }

  lemma {:induction false} LawfulFinals(t: Trace, rid: nat)
    requires Lawful(t)
    ensures |FinalsOf(Hist(t), rid)| <= 1
  {
    if t.Then? {
      LawfulFinals(t.before, rid);
    }
  }

  /**
   A call we received is dropped with exactly one final response sent: a failure of at least
   400, or a 200 followed by a BYE from either side.  The one exception is a BYE from the
   caller before the answer, which sends none.
   */
  lemma ReceivedCallEnds(cfg: Config, evs: seq<Event>, s: State, outs: seq<Output>, k: nat)
    requires RunOf(cfg, evs, s, outs) && k < |outs| && outs[k].CallDropped? && outs[k].role == FromSip
    ensures var finals := FinalCodes(outs[..k], outs[k].rid);
            || (finals == [] && outs[k].cause == SipBye)
            || (finals == [200] && (Byed(outs[..k], outs[k].callId) || outs[k].cause == SipBye))
            || (|finals| == 1 && finals[0] >= 400)
    ensures outs[k].cause != SipBye ==> |FinalCodes(outs[..k], outs[k].rid)| == 1
  {
    RunKeeps(cfg, evs);
    SizeIsLength(s.trace);
    CutLawful(s.trace, k);
    var before := Cut(s.trace, k).before;
    FinalsMean(before, outs[k].rid);
    DialogsMean(before, outs[k].callId);
  }

  /** A call we placed is dropped only after its dialog was ended or its INVITE cancelled or refused. */
  lemma PlacedCallEnds(cfg: Config, evs: seq<Event>, s: State, outs: seq<Output>, k: nat)
    requires RunOf(cfg, evs, s, outs) && k < |outs| && outs[k].CallDropped? && outs[k].role == ToSip
    ensures var id := outs[k].callId;
            if Acked(outs[..k], id) then Byed(outs[..k], id) || outs[k].cause == SipBye
            else Cancelled(outs[..k], id) || outs[k].cause == SipBye || outs[k].cause == SipRejected
  {
    RunKeeps(cfg, evs);
    SizeIsLength(s.trace);
    CutLawful(s.trace, k);
    DialogsMean(Cut(s.trace, k).before, outs[k].callId);
  }

  /**
   Requests of a call we placed: at most two INVITEs, the second with a fresh branch and a higher
   number; a failure ACK or a CANCEL repeats the latest INVITE's; the ACK of a 2xx is sent once.
   */
  lemma PlacedCallRequests(cfg: Config, evs: seq<Event>, s: State, outs: seq<Output>, k: nat)
    requires RunOf(cfg, evs, s, outs) && k < |outs|
    ensures var o := outs[k];
            var past := outs[..k];
            && (o.SendInvite? ==> |InvitesOf(past, o.callId)| <= 1 && !Acked(past, o.callId) && !Cancelled(past, o.callId))
            && (o.SendFailureAck? || o.SendCancel? ==>
                  var invites := InvitesOf(past, o.callId);
                  invites != [] && o.tx == invites[|invites| - 1] && !Acked(past, o.callId))
            && (o.SendCancel? ==> !Cancelled(past, o.callId))
            && (o.SendAck? ==>
                  var invites := InvitesOf(past, o.callId);
                  invites != [] && o.tx.cseq == invites[|invites| - 1].cseq && !Acked(past, o.callId) && !Cancelled(past, o.callId))
  {
    hide Inv, Hist, Outputs;
    RunKeeps(cfg, evs);
    LawfulRun(s);
    SizeIsLength(s.trace);
    CutLawful(s.trace, k);
    var o := outs[k];
    if o.SendInvite? || o.SendFailureAck? || o.SendCancel? || o.SendAck? {
      DialogsMean(Cut(s.trace, k).before, o.callId);
    }
  }

  /** Every request that opens a transaction has a branch of its own and a higher number than all before it. */
  lemma FreshTransactions(cfg: Config, evs: seq<Event>, s: State, outs: seq<Output>, i: nat, k: nat)
    requires RunOf(cfg, evs, s, outs) && i < k < |outs|
    requires outs[i].SendInvite? || outs[i].SendBye? || outs[i].SendInfo?
    requires outs[k].SendInvite? || outs[k].SendBye? || outs[k].SendInfo?
    ensures outs[i].tx.branch != outs[k].tx.branch && outs[i].tx.cseq < outs[k].tx.cseq
  {
    RunKeeps(cfg, evs);
    SizeIsLength(s.trace);
    CutLawful(s.trace, k);
    var before := Cut(s.trace, k).before;
    NumbersMean(before);
    assert outs[i] == outs[..k][i] && outs[i] in Outputs(before);
  }

  /** The modem is told to pick up once, and only after the 2xx was acknowledged and the media runs. */
  lemma AcceptAfterAckAndMedia(cfg: Config, evs: seq<Event>, s: State, outs: seq<Output>, k: nat)
    requires RunOf(cfg, evs, s, outs) && k < |outs| && outs[k].Accept?
    ensures var id := outs[k].callId;
            Acked(outs[..k], id) && MediaUp(outs[..k], id) && !Accepted(outs[..k], id) && StillUp(outs[..k], outs[k].path)
  {
    RunKeeps(cfg, evs);
    SizeIsLength(s.trace);
    CutLawful(s.trace, k);
    DialogsMean(Cut(s.trace, k).before, outs[k].callId);
    OpenLegsMean(Cut(s.trace, k).before, outs[k].path);
  }

  /** BYE once per call, and only on an established dialog: after our ACK, or after our 200. */
  lemma ByeOnlyOnADialog(cfg: Config, evs: seq<Event>, s: State, outs: seq<Output>, k: nat)
    requires RunOf(cfg, evs, s, outs) && k < |outs| && outs[k].SendBye?
    ensures !Byed(outs[..k], outs[k].callId)
    ensures Acked(outs[..k], outs[k].callId) ||
            exists o <- outs[..k] :: o.CallStarted? && o.callId == outs[k].callId && o.role == FromSip
                                     && FinalCodes(outs[..k], o.rid) == [200]
  {
    RunKeeps(cfg, evs);
    SizeIsLength(s.trace);
    CutLawful(s.trace, k);
    var id := outs[k].callId;
    var before := Cut(s.trace, k).before;
    var st := Hist(before).started[id];
    DialogsMean(before, id);
    StartedMean(before, id);
    FinalsMean(before, st.rid);
    assert CallStarted(id, st.role, st.rid, st.port, st.codec) in outs[..k];
  }

  /**
   Every SDP answer of a run (183, 200, re-INVITE 200) names the port bound when the call was set up
   and no telephone-event type but the one the running media session decodes; for a call we received it
   also names the codec first negotiated and conforms to the SDP it was built from.
   */
  lemma SdpAnswers(cfg: Config, evs: seq<Event>, s: State, outs: seq<Output>, k: nat) returns (setup: Output)
    requires RunOf(cfg, evs, s, outs) && k < |outs| && outs[k].ReplySdp?
    ensures setup in outs[..k] && setup.CallStarted? && setup.callId == outs[k].callId
    ensures outs[k].answer.port == setup.port && MediaUp(outs[..k], outs[k].callId)
    ensures outs[k].answer.telephoneEvent.Some? ==> outs[k].answer.telephoneEvent == outs[k].mediaPt
    ensures setup.role == FromSip ==>
              outs[k].answer.payloadTypes == [PayloadType(setup.codec)] && Conforms(outs[k].answer, outs[k].offer)
  {
    RunKeeps(cfg, evs);
    SizeIsLength(s.trace);
    CutLawful(s.trace, k);
    var id := outs[k].callId;
    var before := Cut(s.trace, k).before;
    var st := Hist(before).started[id];
    DialogsMean(before, id);
    StartedMean(before, id);
    setup := CallStarted(id, st.role, st.rid, st.port, st.codec);
  }

  /** Throughout a run exactly one of the socket and the media session holds the port of the call. */
  lemma PortHasOneOwner(cfg: Config, evs: seq<Event>, s: State, outs: seq<Output>)
    requires RunOf(cfg, evs, s, outs) && s.call.Some?
    ensures var c := s.call.value;
            (c.media.Some? && c.rtpSocket.None? && c.media.value.port == c.localRtpPort)
            || (c.media.None? && c.rtpSocket == Some(c.localRtpPort))
  {
    RunKeeps(cfg, evs);
  }

  // ------------------------------------------------------ re-INVITE, exactly

  /**
   The answer to an accepted re-INVITE conforms to the SDP that re-INVITE carried exactly when that SDP
   has media, or has a port (unless ours is zero too), lists the codec, allows the reverse of the stored
   direction and has the event type the stored SDP and the media agree on, if they do.
   An offer without media, on hold by a null address or port, is answered from the SDP before it.
   */
  lemma ReinviteAnswersItsOffer(s: State, rid: nat, req: Request)
    requires Inv(s) && s.call.Some? && ReinviteAccepted(s.call.value, req) && req.sdp.Some?
    ensures var c := s.call.value;
            var offer, stored := req.sdp.value, c.remoteSdp.value;
            var o := OnReinvite(s, rid, req).trace.last;
            && o.ReplySdp?
            && (Conforms(o.answer, offer) <==>
                  || HasMedia(offer)
                  || (&& (offer.port == 0 ==> c.localRtpPort == 0)
                      && PayloadType(c.codec) in offer.payloadTypes
                      && MayAnswer(offer.direction, Reversed(stored.direction))
                      && (c.mediaDtmfPt.Some? && stored.telephoneEvent == c.mediaDtmfPt ==> offer.telephoneEvent == c.mediaDtmfPt)))
  {
    var c := s.call.value;
    var base := if ReinviteOffer(req).Some? then req.sdp.value else c.remoteSdp.value;
    var answer := ReinviteAnswer(s, base);
    var pt := if c.mediaDtmfPt.Some? && base.telephoneEvent == c.mediaDtmfPt then c.mediaDtmfPt else None;
    AnswerConforms(base, s.cfg.advertised, c.localRtpPort, c.codec, pt, s.cfg.ptime);
    assert answer.payloadTypes == [PayloadType(c.codec)];
    assert PayloadType(c.codec) in answer.payloadTypes;
  }

  // ----------------------------------------------------- no request is forgotten

  /** How many final responses the request that `ev` delivers has after the step. */
  function Settles(s: State, ev: Event): nat {
    if TakesCall(s, ev) || RepeatsCall(s, ev) then 0 else 1
  }

  /**
   Every delivered request other than MESSAGE has exactly one final response after the step, unless it is
   the INVITE that becomes the call or one with the Call-ID of a call not answered yet, which have none.
   */
  lemma EveryRequestIsAnswered(s: State, ev: Event)
    requires Inv(s) && EnvOk(s, ev) && s.running && IsRequest(ev)
    ensures |FinalsOf(Hist(Step(s, ev).trace), s.nextRid)| == Settles(s, ev)
  {
    hide OnInvite, OnBye, OnCancel, OnOther, Inv, Hist, InfoCode;
    ArrivalKeeps(s);
    match ev
    case InviteRequest(req, bound, dialled, tag, audioOk) => InviteIsAnswered(s, ev);
    case ByeRequest(req) => ByeIsAnswered(s, req);
    case CancelRequest(req) => CancelIsAnswered(s, req);
    case InfoRequest(req, digits, delivered) =>
      InfoIsFinal(s, req, digits, delivered);
      NewReplyKeeps(s, Info, InfoCode(s, req, digits, delivered));
    case OtherRequest => NewReplyKeeps(s, Method.Other, 405);
  }

  lemma ByeIsAnswered(s: State, req: Request)
    requires Inv(s)
    ensures |FinalsOf(Hist(OnBye(s, req).trace), s.nextRid)| == 1
  {
    hide Inv, InDialogOf;
    var code := if InDialog(s.(nextRid := s.nextRid + 1), req) then 200 else 481;
    NewReplyKeeps(s, Bye, code);
    FinishKeepsFinals(OnOther(s, Bye, code), SipBye);
  }

  lemma EmitKeepsFinals(s: State, o: Output)
    requires !IsResponse(o)
    ensures Hist(Emit(s, o).trace).finals == Hist(s.trace).finals
  {
  }

  lemma FinishKeepsFinals(s: State, cause: Cause)
    ensures Hist(FinishCall(HangupLeg(s), cause).trace).finals == Hist(s.trace).finals
  {
    hide Hist;
    if s.call.Some? {
      var c := s.call.value;
      if c.mmPath.Some? {
        EmitKeepsFinals(s, Hangup(c.mmPath.value));
      }
      EmitKeepsFinals(HangupLeg(s), CallDropped(c.callId, c.role, c.invite.rid, cause));
    }
  }

  lemma CancelIsAnswered(s0: State, req: Request)
    requires Inv(s0)
    ensures FinalsOf(Hist(OnCancel(s0, req).trace), s0.nextRid) == [200]
  {
    hide FinishCall, HangupLeg;
    NewReplyKeeps(s0, Cancel, 200);
    ArrivalKeeps(s0);
    var s := OnOther(s0, Cancel, 200);
    if CancelMatches(s, req) {
      var s1 := Emit(s, Reply(s.call.value.invite.rid, Invite, 487));
      assert FinalsOf(Hist(s1.trace), s0.nextRid) == [200];
      FinishKeepsFinals(s1, SipCancel);
    }
  }

  lemma NewInviteIsAnswered(s0: State, s: State, ev: Event)
    requires ev.InviteRequest? && s == s0.(nextRid := s0.nextRid + 1)
    requires Unanswered(s, s0.nextRid) && s.call.None?
    ensures |FinalsOf(Hist(OnNewInvite(s, s0.nextRid, ev.req, ev.bound, ev.dialled, ev.tag).trace), s0.nextRid)| == Settles(s0, ev)
  {
    hide Hist, FinalsOf, PlaceCall, Unanswered;
    match Screen(s.modem, ev.req)
    case Refuse(code) =>
      ScreenRefusesFinally(s.modem, ev.req);
      FinalIsCounted(s, s0.nextRid, code);
    case Take(codec) => PlacedIsCounted(s, s0.nextRid, ev, codec);
  }

  lemma PlacedIsCounted(s: State, rid: nat, ev: Event, codec: Codec)
    requires ev.InviteRequest? && ev.req.callId.Some? && Unanswered(s, rid) && s.call.None?
    ensures var r := PlaceCall(Emit(s, Reply(rid, Invite, 100)), rid, ev.req, codec, ev.bound, ev.dialled, ev.tag);
            |FinalsOf(Hist(r.trace), rid)| == if ev.bound.Some? && ev.dialled.Some? then 0 else 1
  {
    hide Hist, FinalsOf;
    var s1 := Emit(s, Reply(rid, Invite, 100));
    TryingIsNotFinal(s, rid);
    FinalIsCounted(s1, rid, 500);
    FinalIsCounted(s1, rid, 503);
    if ev.bound.Some? && ev.dialled.Some? {
      var s2 := Emit(s1, Dial(ev.dialled.value));
      EmitKeepsFinals(s1, Dial(ev.dialled.value));
      EmitKeepsFinals(s2, CallStarted(ev.req.callId.value, FromSip, rid, ev.bound.value, codec));
      SameFinals(Hist(s1.trace), Hist(PlaceCall(s1, rid, ev.req, codec, ev.bound, ev.dialled, ev.tag).trace), rid);
    }
  }

  lemma TryingIsNotFinal(s: State, rid: nat)
    ensures FinalsOf(Hist(Emit(s, Reply(rid, Invite, 100)).trace), rid) == FinalsOf(Hist(s.trace), rid)
  {
  }

  lemma SameFinals(h: History, g: History, rid: nat)
    ensures h.finals == g.finals ==> FinalsOf(h, rid) == FinalsOf(g, rid)
  {
  }

  lemma FinalIsCounted(s: State, rid: nat, code: nat)
    requires Unanswered(s, rid) && code >= 200
    ensures FinalsOf(Hist(Emit(s, Reply(rid, Invite, code)).trace), rid) == [code]
  {
  }

  lemma AnswerIsCounted(s: State, rid: nat, offer: Option<Sdp>)
    requires Unanswered(s, rid) && s.call.Some?
    ensures |FinalsOf(Hist(AnswerReinvite(s, rid, offer).trace), rid)| == 1
  {
    hide ReinviteAnswer;
  }

  lemma ReinviteIsAnswered(s: State, rid: nat, req: Request)
    requires Unanswered(s, rid) && s.call.Some?
    ensures |FinalsOf(Hist(OnReinvite(s, rid, req).trace), rid)| == 1
  {
    hide AnswerReinvite, Hist, FinalsOf, Unanswered, InDialogOf, ReinviteOffer, Emit;
    FinalIsCounted(s, rid, 491);
    FinalIsCounted(s, rid, 481);
    FinalIsCounted(s, rid, 488);
    AnswerIsCounted(s, rid, ReinviteOffer(req));
  }

  /** Until the answer an INVITE with the call's own Call-ID gets nothing: the provisional goes to the stored INVITE. */
  lemma RepeatedInviteIsAnswered(s0: State, s: State, ev: Event)
    requires ev.InviteRequest? && s == s0.(nextRid := s0.nextRid + 1)
    requires Unanswered(s, s0.nextRid) && s.call.Some? && ev.req.callId == Some(s.call.value.callId)
    ensures |FinalsOf(Hist(OnRepeatedInvite(s, s0.nextRid, ev.req, ev.audioOk).trace), s0.nextRid)| == Settles(s0, ev)
  {
    hide OnReinvite;
    if s.call.value.answered {
      ReinviteIsAnswered(s, s0.nextRid, ev.req);
    } else {
      hide SdpModel.Answer;
      StoredGetsIt(s, s0.nextRid, ev.audioOk);
    }
  }

  lemma StoredGetsIt(s: State, rid: nat, audioOk: bool)
    requires Unanswered(s, rid) && s.call.Some?
    ensures FinalsOf(Hist(RespondWithMedia(s, 183, audioOk).s.trace), rid) == []
    ensures FinalsOf(Hist(SendProvisional(s, 180).trace), rid) == []
  {
    hide SdpModel.Answer;
  }

  lemma InviteIsAnswered(s0: State, ev: Event)
    requires ev.InviteRequest? && Unanswered(s0.(nextRid := s0.nextRid + 1), s0.nextRid)
    ensures |FinalsOf(Hist(OnInvite(s0, ev.req, ev.bound, ev.dialled, ev.tag, ev.audioOk).trace), s0.nextRid)| == Settles(s0, ev)
  {
    hide OnNewInvite, OnRepeatedInvite, Unanswered, Hist, FinalsOf;
    var s := s0.(nextRid := s0.nextRid + 1);
    if s.call.None? {
      NewInviteIsAnswered(s0, s, ev);
    } else if ev.req.callId == Some(s.call.value.callId) {
      RepeatedInviteIsAnswered(s0, s, ev);
    } else {
      FinalIsCounted(s, s0.nextRid, 486);
    }
  }
}
