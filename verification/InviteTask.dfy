/**
 The task that waits for the responses to an INVITE we sent (src/gateway.rs).  Each turn of its
 loop sees the deadline passed, the next response, or the end of the response channel.
 */
module InviteTask {
  datatype Turn = DeadlinePassed | Response(code: nat) | ChannelClosed

  datatype Event = SipProgress(code: nat) | SipAnswered(code: nat) | SipFailed(code: nat) | RingTimeout

  predicate IsProvisional(code: nat) {
    100 <= code < 200
  }

  predicate IsSuccess(code: nat) {
    200 <= code < 300
  }

  /** The task goes on after this turn. */
  predicate Waits(t: Turn) {
    t.Response? && IsProvisional(t.code)
  }

  /** The event a turn sends, if any. */
  function Sends(t: Turn): (es: seq<Event>)
    ensures |es| <= 1 && (!Waits(t) ==> |es| == 1 && IsTerminal(es[0]))
    ensures Waits(t) ==> forall i :: 0 <= i < |es| ==> es[i] == SipProgress(t.code) && t.code > 100
  {
    match t
    case DeadlinePassed => [RingTimeout]
    case ChannelClosed => [RingTimeout]
    case Response(code) =>
      if IsProvisional(code) then (if code > 100 then [SipProgress(code)] else [])
      else if IsSuccess(code) then [SipAnswered(code)]
      else [SipFailed(code)]
  }

  predicate IsTerminal(e: Event) {
    !e.SipProgress?
  }

  /** Everything the task sends over these turns. */
  function Sent(turns: seq<Turn>): seq<Event> {
    if turns == [] then []
    else if Waits(turns[0]) then Sends(turns[0]) + Sent(turns[1..])
    else Sends(turns[0])
  }

  /** How many turns the task takes part in. */
  function Taken(turns: seq<Turn>): (n: nat)
    ensures n <= |turns|
  {
    if turns == [] then 0 else if Waits(turns[0]) then 1 + Taken(turns[1..]) else 1
  }

  /** Progress only, then at most one terminal event: one exactly when some turn is not a provisional response. */
  lemma {:induction false} OneTerminalEvent(turns: seq<Turn>)
    ensures var es := Sent(turns); var done := exists i :: 0 <= i < |turns| && !Waits(turns[i]);
            && (forall i :: 0 <= i < |es| - 1 ==> es[i].SipProgress? && 100 < es[i].code < 200)
            && (done <==> es != [] && IsTerminal(es[|es| - 1]))
            && (!done ==> forall i :: 0 <= i < |es| ==> es[i].SipProgress?)
  {
    hide Sends;
    if turns != [] {
      if Waits(turns[0]) {
        var rest := turns[1..];
        OneTerminalEvent(rest);
        assert turns == [turns[0]] + rest;
        assert (exists i :: 0 <= i < |turns| && !Waits(turns[i])) <==> (exists i :: 0 <= i < |rest| && !Waits(rest[i])) by {
          if i :| 0 <= i < |turns| && !Waits(turns[i]) {
            assert !Waits(rest[i - 1]);
          }
          if i :| 0 <= i < |rest| && !Waits(rest[i]) {
            assert !Waits(turns[i + 1]);
          }
        }
      }
    }
  }

  /** The terminal event is decided by the first turn that is not a provisional response. */
  lemma {:induction false} FirstDecides(turns: seq<Turn>, k: nat)
    requires k < |turns| && !Waits(turns[k]) && forall i :: 0 <= i < k ==> Waits(turns[i])
    ensures Sent(turns) == Sent(turns[..k]) + Sends(turns[k]) && Taken(turns) == k + 1
    decreases k
  {
    hide Sends, Waits;
    if k > 0 {
      var rest := turns[1..];
      FirstDecides(rest, k - 1);
      assert turns[..k][1..] == rest[..k - 1];
      assert Sends(turns[0]) + (Sent(rest[..k - 1]) + Sends(turns[k])) == Sends(turns[0]) + Sent(rest[..k - 1]) + Sends(turns[k]);
    } else {
      assert turns[..0] == [];
    }
  }

  /** The loop; what comes after its return is never read. */
  method ResponseTask(turns: seq<Turn>) returns (events: seq<Event>, returned: bool)
    ensures events == Sent(turns)
    ensures returned <==> exists i :: 0 <= i < |turns| && !Waits(turns[i])
  {
    hide Sends, Waits, Sent;
    events := [];
    assert turns[0..] == turns;
    for i := 0 to |turns|
      invariant events + Sent(turns[i..]) == Sent(turns)
      invariant forall j :: 0 <= j < i ==> Waits(turns[j])
    {
      SentStep(events, turns, i);
      events := events + Sends(turns[i]);
      if !Waits(turns[i]) { return events, true; }
    }
    SentNone(turns);
    return events, false;
  }

  lemma SentStep(events: seq<Event>, turns: seq<Turn>, i: nat)
    requires i < |turns|
    ensures events + Sent(turns[i..]) == events + Sends(turns[i]) + if Waits(turns[i]) then Sent(turns[i + 1..]) else []
  {
    hide Sends, Waits;
    assert turns[i..][1..] == turns[i + 1..];
  }

  lemma SentNone(turns: seq<Turn>)
    ensures Sent(turns[|turns|..]) == []
  {
  }
}
