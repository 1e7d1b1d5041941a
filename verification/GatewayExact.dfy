/**
 Exactly when a run does what it should not: theorems over every run that name the one event, in
 terms of the state before it, on which a property fails, and show that no other event does it.
 */
module GatewayExact {
  import opened Util
  import opened SdpModel
  import opened GatewayModel
  import opened GatewaySafety
  import opened GatewayLedger
  import opened GatewayTheorems

  // ---------------------------------------------------- notions on the sequence

  /** Codes of all responses to request `rid`, in order. */
  function Codes(outs: seq<Output>, rid: nat): seq<nat> {
    if outs == [] then []
    else
      var o := outs[|outs| - 1];
      var past := Codes(outs[..|outs| - 1], rid);
      if IsResponse(o) && o.rid == rid then past + [o.code] else past
  }

  /** The SDPs that answers were built from, in order. */
  function OffersOf(outs: seq<Output>): seq<Sdp> {
    if outs == [] then []
    else
      var o := outs[|outs| - 1];
      var past := OffersOf(outs[..|outs| - 1]);
      if o.ReplySdp? then past + [o.offer] else past
  }

  /** Output `k` is a provisional response to a request that already has its final one. */
  predicate LateAt(outs: seq<Output>, k: nat) {
    k < |outs| && IsResponse(outs[k]) && outs[k].code < 200 && FinalCodes(outs[..k], outs[k].rid) != []
  }

  /** The call's dialog is up: we sent its 200, or acknowledged theirs. */
  ghost predicate EstablishedIn(outs: seq<Output>, id: CallId) {
    exists o <- outs ::
      && o.CallStarted? && o.callId == id
      && (o.role == ToSip ==> Acked(outs, id))
      && (o.role == FromSip ==> FinalCodes(outs, o.rid) == [200])
  }

  /** Output `k` is an INFO of a call whose dialog is not up. */
  ghost predicate StrayAt(outs: seq<Output>, k: nat) {
    k < |outs| && outs[k].SendInfo? && !EstablishedIn(outs[..k], outs[k].callId)
  }

  // --------------------------------------------------- the account means just that

  lemma OutputsSize(t: Trace)
    ensures |Outputs(t)| == Size(t)
  {
    SizeIsLength(t);
  }

  lemma {:induction false} LateMeans(t: Trace, rid: nat, k: nat)
    ensures k in Book(t, rid).late <==> LateAt(Outputs(t), k)
  {
    if t.Then? {
      hide Hist, FinalsOf, FinalCodes;
      var outs := Outputs(t.before);
      LateMeans(t.before, rid, k);
      OutputsSize(t.before);
      assert k < |outs| ==> Outputs(t)[..k] == outs[..k];
      assert Outputs(t)[..|outs|] == outs;
      if IsResponse(t.last) {
        FinalsMean(t.before, t.last.rid);
      }
    }
  }

  lemma {:induction false} StartedExactly(t: Trace, o: Output)
    requires Lawful(t) && o.CallStarted?
    ensures o in Outputs(t) <==>
            o.callId in Hist(t).started && Hist(t).started[o.callId] == Started(o.role, o.rid, o.port, o.codec)
  {
    if t.Then? {
      StartedExactly(t.before, o);
      StartedMean(t.before, o.callId);
    }
  }

  lemma EstablishedMeans(t: Trace, id: CallId)
    requires Lawful(t)
    ensures Established(Hist(t), id) <==> EstablishedIn(Outputs(t), id)
  {
    hide Hist, Lawful, FinalsOf, FinalCodes, DialogOf;
    var outs := Outputs(t);
    DialogsMean(t, id);
    if Established(Hist(t), id) {
      var st := Hist(t).started[id];
      StartedExactly(t, CallStarted(id, st.role, st.rid, st.port, st.codec));
      FinalsMean(t, st.rid);
    }
    if o :| o in outs && o.CallStarted? && o.callId == id && (o.role == ToSip ==> Acked(outs, id))
            && (o.role == FromSip ==> FinalCodes(outs, o.rid) == [200]) {
      StartedExactly(t, o);
      FinalsMean(t, o.rid);
    }
  }

  lemma {:induction false} StrayMeans(t: Trace, rid: nat, k: nat)
    requires Lawful(t)
    ensures k in Book(t, rid).stray <==> StrayAt(Outputs(t), k)
  {
    if t.Then? {
      hide Hist, Established, EstablishedIn, Permitted;
      var outs := Outputs(t.before);
      StrayMeans(t.before, rid, k);
      OutputsSize(t.before);
      assert k < |outs| ==> Outputs(t)[..k] == outs[..k];
      assert Outputs(t)[..|outs|] == outs;
      if t.last.SendInfo? {
        EstablishedMeans(t.before, t.last.callId);
      }
    }
  }

  lemma ListsAppend(outs: seq<Output>, o: Output, rid: nat)
    ensures Codes(outs + [o], rid) == if IsResponse(o) && o.rid == rid then Codes(outs, rid) + [o.code] else Codes(outs, rid)
    ensures OffersOf(outs + [o]) == if o.ReplySdp? then OffersOf(outs) + [o.offer] else OffersOf(outs)
  {
    assert (outs + [o])[..|outs|] == outs;
  }

  lemma ListsStep(t: Trace, rid: nat)
    requires t.Then?
    ensures var l, m := Book(t, rid), Book(t.before, rid);
            && l.replies == (if IsResponse(t.last) && t.last.rid == rid then m.replies + [t.last.code] else m.replies)
            && l.answers == if t.last.ReplySdp? then m.answers + [t.last.offer] else m.answers
  {
    hide Hist, IsLate, IsStray;
  }

  lemma {:induction false} ListsMean(t: Trace, rid: nat)
    ensures Book(t, rid).replies == Codes(Outputs(t), rid) && Book(t, rid).answers == OffersOf(Outputs(t))
  {
    hide Book, Codes, OffersOf;
    if t.Then? {
      ListsMean(t.before, rid);
      ListsStep(t, rid);
      ListsAppend(Outputs(t.before), t.last, rid);
    } else {
      NothingYet(rid);
    }
  }

  lemma NothingYet(rid: nat)
    ensures Book(Start, rid).replies == Codes([], rid) && Book(Start, rid).answers == OffersOf([])
  {
  }

  function FinalOnly(codes: seq<nat>): seq<nat> {
    if codes == [] then []
    else
      var k := |codes| - 1;
      FinalOnly(codes[..k]) + if codes[k] >= 200 then [codes[k]] else []
  }

  lemma {:induction false} FinalCodesAreCodes(outs: seq<Output>, rid: nat)
    ensures FinalCodes(outs, rid) == FinalOnly(Codes(outs, rid))
    decreases |outs|
  {
    if outs != [] {
      var k := |outs| - 1;
      var past := Codes(outs[..k], rid);
      FinalCodesAreCodes(outs[..k], rid);
      if IsResponse(outs[k]) && outs[k].rid == rid {
        assert (past + [outs[k].code])[..|past|] == past;
      }
    }
  }

  // ------------------------------------------------------------------- one step on

  /** A run that goes on with `ev`. */
  lemma RunOn(cfg: Config, evs: seq<Event>, ev: Event)
    ensures Run(Init(cfg), evs + [ev]) == Step(Run(Init(cfg), evs), ev)
    ensures EnvRun(Init(cfg), evs + [ev]) <==> EnvRun(Init(cfg), evs) && EnvOk(Run(Init(cfg), evs), ev)
  {
    hide Step, EnvOk;
    assert (evs + [ev])[..|evs|] == evs;
  }

  function Reached(cfg: Config, evs: seq<Event>): State {
    Run(Init(cfg), evs)
  }

  function Outs(cfg: Config, evs: seq<Event>): seq<Output> {
    Outputs(Run(Init(cfg), evs).trace)
  }

  /**
   A provisional follows the final of its own request on exactly one kind of event: the modem reports
   ringing on the leg of a received call that is answered and was never rung.  It is that step's last output.
   */
  lemma ProvisionalAfterFinal(cfg: Config, evs: seq<Event>, ev: Event, k: nat)
    requires EnvRun(Init(cfg), evs + [ev])
    ensures LateAt(Outs(cfg, evs + [ev]), k) <==>
            LateAt(Outs(cfg, evs), k) || (RingsLate(Reached(cfg, evs), ev) && k == |Outs(cfg, evs + [ev])| - 1)
  {
    hide Step, Book, Inv, EnvOk, LateAt, RingsLate, StrayDigit;
    RunOn(cfg, evs, ev);
    RunKeeps(cfg, evs);
    var s := Reached(cfg, evs);
    var r := Step(s, ev);
    FreshRid(s);
    StepBooks(s, ev, s.nextRid + 1);
    LateMeans(s.trace, s.nextRid + 1, k);
    LateMeans(r.trace, s.nextRid + 1, k);
    OutputsSize(r.trace);
  }

  lemma FreshRid(s: State)
    requires Inv(s)
    ensures Elsewhere(s, s.nextRid + 1) && Elsewhere(s, s.nextRid)
  {
  }

  /** An INFO leaves outside a dialog on exactly one kind of event: a digit from the mobile side before the answer. */
  lemma InfoOutsideADialog(cfg: Config, evs: seq<Event>, ev: Event, k: nat)
    requires EnvRun(Init(cfg), evs + [ev])
    ensures StrayAt(Outs(cfg, evs + [ev]), k) <==>
            StrayAt(Outs(cfg, evs), k) || (StrayDigit(Reached(cfg, evs), ev) && k == |Outs(cfg, evs + [ev])| - 1)
  {
    hide Step, Book, EnvOk, StrayAt;
    RunOn(cfg, evs, ev);
    RunKeeps(cfg, evs);
    RunKeeps(cfg, evs + [ev]);
    var s := Reached(cfg, evs);
    var r := Step(s, ev);
    FreshRid(s);
    StepBooks(s, ev, s.nextRid + 1);
    StrayMeans(s.trace, s.nextRid + 1, k);
    StrayMeans(r.trace, s.nextRid + 1, k);
    OutputsSize(r.trace);
  }

  // --------------------------------------------------------------- the current SDP

  /** The SDP of the peer that counts after these events: of the INVITE that set the call up, of the 2xx, or of the last accepted re-INVITE with media. */
  function CurrentSdp(cfg: Config, evs: seq<Event>): Option<Sdp> {
    if evs == [] then None
    else
      var past := evs[..|evs| - 1];
      var new' := NewRemote(Run(Init(cfg), past), evs[|evs| - 1]);
      if new'.Some? then new' else CurrentSdp(cfg, past)
  }

  lemma {:induction false} RemoteIsCurrent(cfg: Config, evs: seq<Event>)
    ensures var c := Reached(cfg, evs).call; c.Some? && c.value.remoteSdp.Some? ==> c.value.remoteSdp == CurrentSdp(cfg, evs)
    decreases |evs|
  {
    if evs != [] {
      hide Step, NewRemote;
      var past := evs[..|evs| - 1];
      RemoteIsCurrent(cfg, past);
      StepKeepsTheCall(Run(Init(cfg), past), evs[|evs| - 1]);
    }
  }

  /** A step sends at most one SDP answer, and it is built from the SDP that is current after the step's event. */
  lemma AnswersTheCurrentSdp(cfg: Config, evs: seq<Event>, ev: Event)
    requires EnvRun(Init(cfg), evs + [ev])
    ensures var now, past := OffersOf(Outs(cfg, evs + [ev])), OffersOf(Outs(cfg, evs)); var sdp := CurrentSdp(cfg, evs + [ev]);
            now == past || (sdp.Some? && now == past + [sdp.value])
  {
    hide Step, Book, Inv, EnvOk, RingsLate, StrayDigit, NewRemote;
    RunOn(cfg, evs, ev);
    RunKeeps(cfg, evs);
    var s := Reached(cfg, evs);
    FreshRid(s);
    StepBooks(s, ev, s.nextRid + 1);
    ListsMean(s.trace, s.nextRid + 1);
    ListsMean(Step(s, ev).trace, s.nextRid + 1);
    RemoteIsCurrent(cfg, evs);
    assert (evs + [ev])[..|evs|] == evs;
  }

  lemma {:induction false} OfferIsListed(outs: seq<Output>, k: nat)
    requires k < |outs| && outs[k].ReplySdp?
    ensures outs[k].offer in OffersOf(outs)
    decreases |outs|
  {
    if k < |outs| - 1 {
      OfferIsListed(outs[..|outs| - 1], k);
    }
  }

  lemma {:induction false} OffersWereCurrent(cfg: Config, evs: seq<Event>, offer: Sdp) returns (i: nat)
    requires EnvRun(Init(cfg), evs) && offer in OffersOf(Outs(cfg, evs))
    ensures i <= |evs| && CurrentSdp(cfg, evs[..i]) == Some(offer)
    decreases |evs|
  {
    hide Step, EnvOk, NewRemote;
    var past, ev := evs[..|evs| - 1], evs[|evs| - 1];
    assert evs == past + [ev];
    AnswersTheCurrentSdp(cfg, past, ev);
    if CurrentSdp(cfg, evs) == Some(offer) {
      i := |evs|;
      assert evs[..i] == evs;
    } else {
      i := OffersWereCurrent(cfg, past, offer);
      assert past[..i] == evs[..i];
    }
  }

  /** Every SDP answer of a run was built from an SDP the peer had made current. */
  lemma EveryAnswerHasItsOffer(cfg: Config, evs: seq<Event>, k: nat) returns (i: nat)
    requires EnvRun(Init(cfg), evs) && k < |Outs(cfg, evs)| && Outs(cfg, evs)[k].ReplySdp?
    ensures i <= |evs| && CurrentSdp(cfg, evs[..i]) == Some(Outs(cfg, evs)[k].offer)
  {
    hide OffersOf, CurrentSdp, EnvRun;
    OfferIsListed(Outs(cfg, evs), k);
    i := OffersWereCurrent(cfg, evs, Outs(cfg, evs)[k].offer);
  }

  // ------------------------------------------------------ requests left unanswered

  /** Responses go to the request that arrives and to the one the call keeps; to others never again. */
  lemma {:induction false} NoMoreResponses(cfg: Config, evs: seq<Event>, more: seq<Event>, rid: nat)
    requires EnvRun(Init(cfg), evs + more) && Bystander(Reached(cfg, evs), rid)
    ensures Bystander(Reached(cfg, evs + more), rid)
    ensures Codes(Outs(cfg, evs + more), rid) == Codes(Outs(cfg, evs), rid)
    decreases |more|
  {
    if more == [] {
      assert evs + more == evs;
    } else {
      hide Step, Book, EnvOk, Bystander, Codes;
      var k := |more| - 1;
      assert evs + more == (evs + more[..k]) + [more[k]];
      var past := evs + more[..k];
      RunOn(cfg, past, more[k]);
      NoMoreResponses(cfg, evs, more[..k], rid);
      StepIgnores(cfg, past, more[k], rid);
    }
  }

  lemma StepIgnores(cfg: Config, evs: seq<Event>, ev: Event, rid: nat)
    requires EnvRun(Init(cfg), evs + [ev]) && Bystander(Reached(cfg, evs), rid)
    ensures Bystander(Reached(cfg, evs + [ev]), rid)
    ensures Codes(Outs(cfg, evs + [ev]), rid) == Codes(Outs(cfg, evs), rid)
  {
    hide Step, Book, Inv, EnvOk, RingsLate, StrayDigit, Codes;
    RunOn(cfg, evs, ev);
    RunKeeps(cfg, evs);
    var s := Reached(cfg, evs);
    StepBooks(s, ev, rid);
    BystanderStays(s, ev, rid);
    ListsMean(s.trace, rid);
    ListsMean(Step(s, ev).trace, rid);
  }

  /** Nothing is sent to a request before it arrives. */
  lemma {:induction false} NoResponseAhead(cfg: Config, evs: seq<Event>, rid: nat)
    requires EnvRun(Init(cfg), evs) && rid >= Reached(cfg, evs).nextRid
    ensures Book(Reached(cfg, evs).trace, rid).replies == []
    decreases |evs|
  {
    if evs != [] {
      hide Step, EnvOk, Inv, RingsLate, StrayDigit, Current;
      var past, ev := evs[..|evs| - 1], evs[|evs| - 1];
      var s := Reached(cfg, past);
      RunKeeps(cfg, past);
      StepKeepsTheCall(s, ev);
      CallIsOlder(s);
      NoResponseAhead(cfg, past, rid);
      if IsRequest(ev) && rid == s.nextRid {
        StoppedKeeps(s, ev);
      } else {
        StepBooks(s, ev, rid);
      }
    }
  }

  lemma CallIsOlder(s: State)
    requires Inv(s)
    ensures s.call.Some? ==> s.call.value.invite.rid < s.nextRid
  {
  }

  lemma StoppedKeeps(s: State, ev: Event)
    ensures !s.running ==> Step(s, ev) == s
  {
  }

  /** The step that delivers the repeated INVITE sends nothing to it. */
  lemma RepeatStep(s: State, ev: Event)
    requires Inv(s) && s.running && RepeatsCall(s, ev)
    ensures Book(Step(s, ev).trace, s.nextRid).replies == Book(s.trace, s.nextRid).replies
    ensures Bystander(Step(s, ev), s.nextRid)
  {
    hide RespondWithMedia, SendProvisional, OnReinvite, OnNewInvite, Book, Inv;
    var rid := s.nextRid;
    var s1 := s.(nextRid := rid + 1);
    CallIsOlder(s);
    OwedBeforeTheAnswer(s, rid);
    RespondSame(s1, 183, ev.audioOk, rid);
    ProvisionalSame(s1, 180, rid);
    RespondAlike(s1, 183, ev.audioOk);
    RespondAlike(s1, 180, ev.audioOk);
    assert Step(s, ev) == if s.call.value.earlyMedia then RespondWithMedia(s1, 183, ev.audioOk).s else SendProvisional(s1, 180);
  }

  /** The repeated INVITE itself gets nothing in its step. */
  lemma RepeatGetsNothing(cfg: Config, evs: seq<Event>, ev: Event)
    requires EnvRun(Init(cfg), evs + [ev]) && Reached(cfg, evs).running && RepeatsCall(Reached(cfg, evs), ev)
    ensures var rid := Reached(cfg, evs).nextRid;
            Codes(Outs(cfg, evs + [ev]), rid) == [] && Bystander(Reached(cfg, evs + [ev]), rid)
  {
    hide Step, Book, Inv, EnvOk, RepeatsCall, Codes, Bystander;
    RunOn(cfg, evs, ev);
    RunKeeps(cfg, evs);
    var s := Reached(cfg, evs);
    NoResponseAhead(cfg, evs, s.nextRid);
    RepeatStep(s, ev);
    ListsMean(Step(s, ev).trace, s.nextRid);
  }

  /**
   An INVITE with the Call-ID of a call that is not answered yet never gets a response, not even a
   provisional one, however the run goes on.
   */
  lemma RepeatIsNeverAnswered(cfg: Config, evs: seq<Event>, ev: Event, more: seq<Event>)
    requires EnvRun(Init(cfg), (evs + [ev]) + more) && Reached(cfg, evs).running && RepeatsCall(Reached(cfg, evs), ev)
    ensures Codes(Outs(cfg, (evs + [ev]) + more), Reached(cfg, evs).nextRid) == []
  {
    hide Step, RepeatsCall, EnvOk, Codes;
    EnvPrefix(cfg, evs + [ev], more);
    RepeatGetsNothing(cfg, evs, ev);
    NoMoreResponses(cfg, evs + [ev], more, Reached(cfg, evs).nextRid);
  }

  lemma {:induction false} EnvPrefix(cfg: Config, evs: seq<Event>, more: seq<Event>)
    requires EnvRun(Init(cfg), evs + more)
    ensures EnvRun(Init(cfg), evs)
    decreases |more|
  {
    if more == [] {
      assert evs + more == evs;
    } else {
      hide EnvOk;
      var k := |more| - 1;
      assert (evs + more)[..|evs + more| - 1] == evs + more[..k];
      EnvPrefix(cfg, evs, more[..k]);
    }
  }

  // -------------------------------------------------------- BYE before the answer

  /** An in-dialog BYE on a received call ends it and adds no final response to its INVITE. */
  lemma ByeAddsNoFinal(s: State, req: Request)
    requires Inv(s) && s.running && s.call.Some? && s.call.value.role == FromSip && InDialog(s, req)
    ensures var c, r := s.call.value, Step(s, ByeRequest(req));
            r.call.None? && FinalsOf(Hist(r.trace), c.invite.rid) == if c.answered then [200] else []
  {
    hide FinishCall, HangupLeg;
    var s1 := Emit(s.(nextRid := s.nextRid + 1), Reply(s.nextRid, Bye, 200));
    FinishKeepsFinals(s1, SipBye);
    FinishDrops(s1, SipBye);
  }

  /**
   So the INVITE of a received call that is ended by a BYE has for ever the final responses it had: the
   200 if it was answered, and none if it was not.
   */
  lemma ByeBeforeTheAnswer(cfg: Config, evs: seq<Event>, req: Request, more: seq<Event>)
    requires EnvRun(Init(cfg), (evs + [ByeRequest(req)]) + more)
    requires var s := Reached(cfg, evs); s.running && s.call.Some? && s.call.value.role == FromSip && InDialog(s, req)
    ensures var c := Reached(cfg, evs).call.value;
            FinalCodes(Outs(cfg, (evs + [ByeRequest(req)]) + more), c.invite.rid) == if c.answered then [200] else []
  {
    hide Step, EnvOk, Codes, FinalCodes, InDialog;
    var s, ev := Reached(cfg, evs), ByeRequest(req);
    var rid := s.call.value.invite.rid;
    EnvPrefix(cfg, evs + [ev], more);
    RunOn(cfg, evs, ev);
    RunKeeps(cfg, evs);
    ByeAddsNoFinal(s, req);
    FinalsMean(Step(s, ev).trace, rid);
    StepKeepsTheCall(s, ev);
    CallIsOlder(s);
    NoMoreResponses(cfg, evs + [ev], more, rid);
    FinalCodesAreCodes(Outs(cfg, evs + [ev]), rid);
    FinalCodesAreCodes(Outs(cfg, (evs + [ev]) + more), rid);
  }
}
