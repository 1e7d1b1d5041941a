/** Short runs of the gateway that reach the events GatewayExact names, so that none of them is an empty case. */
module GatewayWitness {
  import opened Util
  import opened SdpModel
  import opened GatewayModel
  import opened GatewaySafety
  import opened GatewayLedger
  import opened GatewayTheorems
  import opened GatewayExact

  const CFG: Config := Config(false, 101, false, 1, 20)

  const OFFER: Sdp := Sdp(7, 4000, [0], None, Some(20), SendRecv)

  // ------------------------------------------------------------- a received call

  const INVITE: Request := Request(Some("c"), Some(1), None, Some("a"), true, true, "1", Some(OFFER))

  const RECEIVED: seq<Event> := [ModemUp, InviteRequest(INVITE, Some(16000), Some("leg"), "g", true)]

  function ReceivedCall(): ActiveCall {
    ActiveCall(FromSip, Some("leg"), "c", Some("g"), Some("a"), 1, Received(0, Some(1)), None, Some(16000), 16000, Pcmu,
               Some(OFFER), None, false, false, false, false, false)
  }

  function ReceivedTrace(): Trace {
    Then(Then(Then(Start, Reply(0, Invite, 100)), Dial("leg")), CallStarted("c", FromSip, 0, 16000, Pcmu))
  }

  function Ringing(): State {
    State(CFG, true, true, Some(ReceivedCall()), 2, 0, 1, ReceivedTrace())
  }

  lemma UpRun()
    ensures EnvRun(Init(CFG), [ModemUp]) && Reached(CFG, [ModemUp]) == Init(CFG).(modem := true)
  {
    RunOn(CFG, [], ModemUp);
    assert [] + [ModemUp] == [ModemUp];
  }

  lemma ReceivedRun()
    ensures EnvRun(Init(CFG), RECEIVED) && Reached(CFG, RECEIVED) == Ringing()
  {
    var ev := InviteRequest(INVITE, Some(16000), Some("leg"), "g", true);
    UpRun();
    RunOn(CFG, [ModemUp], ev);
    assert [ModemUp] + [ev] == RECEIVED;
    assert Negotiate(OFFER.payloadTypes) == Some(Pcmu);
    assert Screen(true, INVITE) == Take(Pcmu);
  }

  function AnsweredCall(): ActiveCall {
    ReceivedCall().(rtpSocket := None, media := Some(Media(16000, Pcmu, None)), answered := true)
  }

  function AnsweredTrace(): Trace {
    Then(Then(ReceivedTrace(), MediaStarted("c")),
         ReplySdp(0, Invite, 200, "c", Sdp(1, 16000, [0], None, Some(20), SendRecv), OFFER, None))
  }

  function Talking(): State {
    State(CFG, true, true, Some(AnsweredCall()), 2, 0, 1, AnsweredTrace())
  }

  const ACTIVE: Event := CallState("leg", Active, NormalEnd, true)

  lemma AnsweredRun()
    ensures EnvRun(Init(CFG), RECEIVED + [ACTIVE]) && Reached(CFG, RECEIVED + [ACTIVE]) == Talking()
  {
    ReceivedRun();
    RunOn(CFG, RECEIVED, ACTIVE);
  }

  /** Ringing reported after the answer: a 180 follows the 200. */
  lemma RingingAfterTheAnswer()
    ensures var evs := (RECEIVED + [ACTIVE]) + [CallState("leg", Alerting, NormalEnd, true)]; var outs := Outs(CFG, evs);
            EnvRun(Init(CFG), evs) && |outs| == 6 && outs[5] == Reply(0, Invite, 180) && LateAt(outs, 5)
  {
    var evs, ev := RECEIVED + [ACTIVE], CallState("leg", Alerting, NormalEnd, true);
    AnsweredRun();
    RunOn(CFG, evs, ev);
    ProvisionalAfterFinal(CFG, evs, ev, 5);
    OutputsSize(Step(Talking(), ev).trace);
  }

  /** A BYE before the answer: the call is dropped and its INVITE has no final response. */
  lemma ByeBeforeTheAnswerRun()
    ensures var bye := Request(Some("c"), Some(2), Some("g"), Some("a"), true, true, "1", None);
            var evs := RECEIVED + [ByeRequest(bye)]; var outs := Outs(CFG, evs);
            && EnvRun(Init(CFG), evs) && CallDropped("c", FromSip, 0, SipBye) in outs && FinalCodes(outs, 0) == []
  {
    var bye := Request(Some("c"), Some(2), Some("g"), Some("a"), true, true, "1", None);
    ReceivedRun();
    RunOn(CFG, RECEIVED, ByeRequest(bye));
    assert RECEIVED + [ByeRequest(bye)] == (RECEIVED + [ByeRequest(bye)]) + [];
    ByeBeforeTheAnswer(CFG, RECEIVED, bye, []);
    assert Step(Ringing(), ByeRequest(bye)).trace.last == CallDropped("c", FromSip, 0, SipBye);
  }

  /** Hold by a null address: a sendonly offer is answered sendrecv. */
  lemma HoldAnsweredFromTheOldSdp()
    ensures var hold := Sdp(0, 4000, [0], None, Some(20), SendOnly);
            var req := Request(Some("c"), Some(2), Some("g"), Some("a"), true, true, "1", Some(hold));
            var evs := (RECEIVED + [ACTIVE]) + [InviteRequest(req, None, None, "h", true)];
            var t := Reached(CFG, evs).trace;
            EnvRun(Init(CFG), evs) && t.Then? && var o := t.last; o.ReplySdp? && o.rid == 1 && o.code == 200 && !Conforms(o.answer, hold)
  {
    var hold := Sdp(0, 4000, [0], None, Some(20), SendOnly);
    var req := Request(Some("c"), Some(2), Some("g"), Some("a"), true, true, "1", Some(hold));
    var ev := InviteRequest(req, None, None, "h", true);
    AnsweredRun();
    RunOn(CFG, RECEIVED + [ACTIVE], ev);
    assert Step(Talking(), ev) == OnReinvite(Talking().(nextRid := 2), 1, req);
  }

  /** Rejection by port zero: the answer still names our port. */
  lemma PortZeroAnsweredWithAPort()
    ensures var off := OFFER.(port := 0);
            var req := Request(Some("c"), Some(2), Some("g"), Some("a"), true, true, "1", Some(off));
            var evs := (RECEIVED + [ACTIVE]) + [InviteRequest(req, None, None, "h", true)];
            var t := Reached(CFG, evs).trace;
            EnvRun(Init(CFG), evs) && t.Then? && var o := t.last; o.ReplySdp? && o.answer.port == 16000 && !Conforms(o.answer, off)
  {
    var off := OFFER.(port := 0);
    var req := Request(Some("c"), Some(2), Some("g"), Some("a"), true, true, "1", Some(off));
    var ev := InviteRequest(req, None, None, "h", true);
    AnsweredRun();
    RunOn(CFG, RECEIVED + [ACTIVE], ev);
    assert Step(Talking(), ev) == OnReinvite(Talking().(nextRid := 2), 1, req);
  }

  // --------------------------------------------------------------- a placed call

  const LEG: Event := CallAdded("leg", Some(CallInfo(false, true)), SetupOk("c", "t", 16000))

  const PLACED: seq<Event> := [ModemUp, LEG]

  function Waiting(): State {
    State(CFG, true, true,
          Some(ActiveCall(ToSip, Some("leg"), "c", Some("t"), None, 1, Sent(0, Tx(0, 1)), None, Some(16000), 16000, Pcmu,
                          None, None, false, false, false, false, true)),
          2, 1, 1,
          Then(Then(Then(Start, OfferLeg("leg")), CallStarted("c", ToSip, 0, 16000, Pcmu)), SendInvite("c", Tx(0, 1))))
  }

  lemma PlacedRun()
    ensures EnvRun(Init(CFG), PLACED) && Reached(CFG, PLACED) == Waiting()
  {
    UpRun();
    RunOn(CFG, [ModemUp], LEG);
    assert [ModemUp] + [LEG] == PLACED;
  }

  /** The peer's INVITE with the Call-ID of our own: it gets nothing, and a 180 goes out for our INVITE. */
  lemma OwnCallIdInvite()
    ensures var evs := PLACED + [InviteRequest(INVITE, None, None, "g", true)]; var outs := Outs(CFG, evs);
            EnvRun(Init(CFG), evs) && Codes(outs, 1) == [] && |outs| == 4 && outs[3] == Reply(0, Invite, 180)
  {
    var ev := InviteRequest(INVITE, None, None, "g", true);
    PlacedRun();
    RunOn(CFG, PLACED, ev);
    RepeatGetsNothing(CFG, PLACED, ev);
    OutputsSize(Step(Waiting(), ev).trace);
  }

  /** A digit before the answer: an INFO leaves although there is no dialog. */
  lemma DigitBeforeTheAnswer()
    ensures var evs := PLACED + [ModemDtmf("leg")]; var outs := Outs(CFG, evs);
            EnvRun(Init(CFG), evs) && |outs| == 4 && outs[3].SendInfo? && StrayAt(outs, 3)
  {
    var ev := ModemDtmf("leg");
    PlacedRun();
    RunOn(CFG, PLACED, ev);
    InfoOutsideADialog(CFG, PLACED, ev, 3);
    OutputsSize(Step(Waiting(), ev).trace);
  }
}
