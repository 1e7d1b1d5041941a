/**
 The negotiated part of an SDP body (src/sip/sdp.rs): codecs, direction and the
 offer/answer rules.  The address is a number, 0 standing for the unspecified one.
 */
module SdpModel {
  import opened Util

  datatype Codec = Pcmu | Pcma

  function PayloadType(c: Codec): nat {
    match c
    case Pcmu => 0
    case Pcma => 8
  }

  function FromPayloadType(pt: nat): Option<Codec> {
    if pt == 0 then Some(Pcmu) else if pt == 8 then Some(Pcma) else None
  }

  datatype Direction = SendRecv | SendOnly | RecvOnly | Inactive

  function Reversed(d: Direction): Direction {
    match d
    case SendOnly => RecvOnly
    case RecvOnly => SendOnly
    case _ => d
  }

  predicate PeerSends(d: Direction) {
    d.SendRecv? || d.SendOnly?
  }

  datatype Sdp = Sdp(
    address: nat,
    port: nat,
    payloadTypes: seq<nat>,
    telephoneEvent: Option<nat>,
    ptime: Option<nat>,
    direction: Direction
  )

  /** First supported codec, in the order the peer listed them. */
  function Negotiate(payloadTypes: seq<nat>): (r: Option<Codec>)
    ensures r.Some? ==> PayloadType(r.value) in payloadTypes
  {
    if payloadTypes == [] then None
    else
      match FromPayloadType(payloadTypes[0])
      case Some(c) => Some(c)
      case None => Negotiate(payloadTypes[1..])
  }

  predicate HasMedia(s: Sdp) {
    s.port != 0 && s.address != 0
  }

  function Answer(offer: Sdp, address: nat, port: nat, codec: Codec, dtmfPt: Option<nat>, ptime: nat): Sdp {
    Sdp(address, port, [PayloadType(codec)],
        if dtmfPt.Some? then offer.telephoneEvent else None,
        Some(ptime), Reversed(offer.direction))
  }

  /** The directions an answer may take to an offer (section 6.1 of RFC 3264). */
  predicate MayAnswer(offer: Direction, answer: Direction) {
    match offer
    case SendRecv => true
    case SendOnly => answer.RecvOnly? || answer.Inactive?
    case RecvOnly => answer.SendOnly? || answer.Inactive?
    case Inactive => answer.Inactive?
  }

  /**
   What an answer may say about an offer: no codec and no telephone-event type but those offered, a
   direction that fits, and port zero where the offer has port zero (sections 6.1 and 8.2 of RFC 3264).
   */
  ghost predicate Conforms(answer: Sdp, offer: Sdp) {
    && (forall pt <- answer.payloadTypes :: pt in offer.payloadTypes)
    && (answer.telephoneEvent.Some? ==> answer.telephoneEvent == offer.telephoneEvent)
    && MayAnswer(offer.direction, answer.direction)
    && (offer.port == 0 ==> answer.port == 0)
  }

  /** An answer conforms to its offer exactly when the codec it names was offered and the offer is not a port zero. */
  lemma AnswerConforms(offer: Sdp, address: nat, port: nat, codec: Codec, dtmfPt: Option<nat>, ptime: nat)
    ensures Conforms(Answer(offer, address, port, codec, dtmfPt, ptime), offer)
            <==> PayloadType(codec) in offer.payloadTypes && (offer.port == 0 ==> port == 0)
  {
    assert PayloadType(codec) in Answer(offer, address, port, codec, dtmfPt, ptime).payloadTypes;
  }

  /** The negotiated codec is the earliest entry this gateway supports, if there is one. */
  lemma {:induction false} NegotiateIsFirst(payloadTypes: seq<nat>) returns (k: nat)
    ensures k <= |payloadTypes|
    ensures forall i :: 0 <= i < k ==> FromPayloadType(payloadTypes[i]).None?
    ensures k == |payloadTypes| ==> Negotiate(payloadTypes).None?
    ensures k < |payloadTypes| ==>
              Negotiate(payloadTypes).Some? && PayloadType(Negotiate(payloadTypes).value) == payloadTypes[k]
  {
    if payloadTypes == [] || FromPayloadType(payloadTypes[0]).Some? {
      k := 0;
    } else {
      var k' := NegotiateIsFirst(payloadTypes[1..]);
      k := k' + 1;
      assert forall i :: 1 <= i < k ==> payloadTypes[i] == payloadTypes[1..][i - 1];
    }
  }
}
