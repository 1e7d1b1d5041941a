/**
 Retransmission of 2xx answers until they are acknowledged (src/sip/core.rs).  Each answer
 starts a timer; the map remembers, per Call-ID and sequence number, the timer whose answer
 is still unacknowledged.  Answers, ACKs, timer ticks and expiries are atomic steps.
 */
module AckTimers {
  import opened Util

  /** `Sleeping` will wake and resend; `Leaving` has left its loop and will drop its own entry. */
  datatype Phase = Sleeping | Leaving | Gone

  datatype Timer = Timer(key: string, stop: bool, phase: Phase, delay: nat, elapsed: nat, resent: nat)

  datatype State = State(pending: map<string, nat>, timers: seq<Timer>)

  const GIVE_UP: nat := 32000

  function Init(): State {
    State(map[], [])
  }

  datatype Event =
    | Answer(key: string)
    | Ack(key: string)
    | Tick(id: nat, sent: bool)
    | Expire(id: nat)

  function Stop(timers: seq<Timer>, id: nat): seq<Timer> {
    if id < |timers| then timers[id := timers[id].(stop := true)] else timers
  }

  /** A timer that wakes up: gone if stopped, otherwise it resends and backs off. */
  function Woken(t: Timer, sent: bool): Timer {
    if t.stop then t.(phase := Gone)
    else if !sent then t.(phase := Leaving)
    else
      var elapsed := t.elapsed + t.delay;
      t.(resent := t.resent + 1, elapsed := elapsed, delay := Min(2 * t.delay, 4000),
         phase := if elapsed < GIVE_UP then Sleeping else Leaving)
  }

  function Step(s: State, ev: Event): State {
    match ev
    case Answer(key) =>
      var stopped := if key in s.pending then Stop(s.timers, s.pending[key]) else s.timers;
      State(s.pending[key := |s.timers|], stopped + [Timer(key, false, Sleeping, 500, 0, 0)])
    case Ack(key) =>
      if key in s.pending then State(s.pending - {key}, Stop(s.timers, s.pending[key])) else s
    case Tick(id, sent) =>
      if id < |s.timers| && s.timers[id].phase.Sleeping?
      then s.(timers := s.timers[id := Woken(s.timers[id], sent)])
      else s
    case Expire(id) =>
      if id < |s.timers| && s.timers[id].phase.Leaving? then
        var key := s.timers[id].key;
        State(if key in s.pending && s.pending[key] == id then s.pending - {key} else s.pending,
              s.timers[id := s.timers[id].(phase := Gone)])
      else s
  }

  datatype Run = Begin | After(past: Run, ev: Event)

  function StateOf(r: Run): State {
    if r.Begin? then Init() else Step(StateOf(r.past), r.ev)
  }

  // ------------------------------------------------------------ the invariant

  predicate LiveUnstopped(t: Timer) {
    !t.stop && !t.phase.Gone?
  }

  /** The sleeping times after `n` resends, and what they add up to. */
  function DelayAfter(n: nat): nat {
    if n == 0 then 500 else if n == 1 then 1000 else if n == 2 then 2000 else 4000
  }

  function ElapsedAfter(n: nat): nat {
    if n == 0 then 0 else ElapsedAfter(n - 1) + DelayAfter(n - 1)
  }

  predicate OnSchedule(t: Timer) {
    && t.delay == DelayAfter(t.resent)
    && t.elapsed == ElapsedAfter(t.resent)
    && (t.phase.Sleeping? ==> t.elapsed < GIVE_UP)
    && t.resent <= 11
  }

  ghost predicate Inv(s: State) {
    && (forall k :: k in s.pending ==>
          s.pending[k] < |s.timers| && s.timers[s.pending[k]].key == k && LiveUnstopped(s.timers[s.pending[k]]))
    && (forall i :: 0 <= i < |s.timers| && LiveUnstopped(s.timers[i]) ==>
          s.timers[i].key in s.pending && s.pending[s.timers[i].key] == i)
    && (forall i :: 0 <= i < |s.timers| ==> OnSchedule(s.timers[i]))
  }

  lemma ElevenIsEnough(n: nat)
    requires n <= 11
    ensures ElapsedAfter(n) < GIVE_UP <==> n <= 10
  {
    assert ElapsedAfter(0) == 0 && ElapsedAfter(1) == 500 && ElapsedAfter(2) == 1500 && ElapsedAfter(3) == 3500;
    assert ElapsedAfter(4) == 7500 && ElapsedAfter(5) == 11500 && ElapsedAfter(6) == 15500 && ElapsedAfter(7) == 19500;
    assert ElapsedAfter(8) == 23500 && ElapsedAfter(9) == 27500 && ElapsedAfter(10) == 31500 && ElapsedAfter(11) == 35500;
  }

  lemma WokenStaysOnSchedule(t: Timer, sent: bool)
    requires OnSchedule(t) && t.phase.Sleeping?
    ensures OnSchedule(Woken(t, sent))
  {
    ElevenIsEnough(t.resent);
    if t.resent < 11 {
      ElevenIsEnough(t.resent + 1);
    }
  }

  lemma AnswerKeeps(s: State, key: string)
    requires Inv(s)
    ensures Inv(Step(s, Answer(key)))
  {
    hide ElapsedAfter, DelayAfter;
    assert OnSchedule(Timer(key, false, Sleeping, 500, 0, 0)) by { FirstIsOnSchedule(key); }
  }

  lemma FirstIsOnSchedule(key: string)
    ensures OnSchedule(Timer(key, false, Sleeping, 500, 0, 0))
  {
  }

  lemma AckKeeps(s: State, key: string)
    requires Inv(s)
    ensures Inv(Step(s, Ack(key)))
  {
    hide ElapsedAfter, DelayAfter;
  }

  lemma TickKeeps(s: State, id: nat, sent: bool)
    requires Inv(s)
    ensures Inv(Step(s, Tick(id, sent)))
  {
    if id < |s.timers| && s.timers[id].phase.Sleeping? {
      hide OnSchedule;
      WokenStaysOnSchedule(s.timers[id], sent);
    }
  }

  lemma ExpireKeeps(s: State, id: nat)
    requires Inv(s)
    ensures Inv(Step(s, Expire(id)))
  {
    hide ElapsedAfter, DelayAfter;
  }

  lemma StepKeeps(s: State, ev: Event)
    requires Inv(s)
    ensures Inv(Step(s, ev))
  {
    hide Inv, Step;
    match ev {
      case Answer(key) => AnswerKeeps(s, key);
      case Ack(key) => AckKeeps(s, key);
      case Tick(id, sent) => TickKeeps(s, id, sent);
      case Expire(id) => ExpireKeeps(s, id);
    }
  }

  /** An undisturbed timer wakes, resends, and leaves after the eleventh time. */
  lemma WakeKeeps(s: State, id: nat)
    requires Inv(s) && id < |s.timers| && LiveUnstopped(s.timers[id]) && s.timers[id].phase.Sleeping?
    ensures var t := Woken(s.timers[id], true);
            && Inv(s.(timers := s.timers[id := t])) && LiveUnstopped(t) && t.key == s.timers[id].key
            && t.resent == s.timers[id].resent + 1 <= 11
            && (!t.phase.Sleeping? ==> t.resent == 11 && t.elapsed == 35500)
  {
    hide Inv;
    TickKeeps(s, id, true);
    TimerOnSchedule(s, id);
    WokenStaysOnSchedule(s.timers[id], true);
    ElevenIsEnough(s.timers[id].resent + 1);
    LastElapsed();
  }

  lemma TimerOnSchedule(s: State, id: nat)
    requires Inv(s) && id < |s.timers|
    ensures OnSchedule(s.timers[id])
  {
  }

  lemma LastElapsed()
    ensures ElapsedAfter(11) == 35500
  {
    ElevenIsEnough(11);
    assert ElapsedAfter(8) == 23500;
  }

  lemma LeaveKeeps(s: State, id: nat)
    requires Inv(s) && id < |s.timers| && LiveUnstopped(s.timers[id]) && !s.timers[id].phase.Sleeping?
    ensures var key := s.timers[id].key;
            && key in s.pending && s.pending[key] == id
            && Inv(State(s.pending - {key}, s.timers[id := s.timers[id].(phase := Gone)]))
  {
    hide OnSchedule;
    ExpireKeeps(s, id);
  }

  lemma {:induction false} RunKeeps(r: Run)
    ensures Inv(StateOf(r))
  {
    if r.After? {
      RunKeeps(r.past);
      StepKeeps(StateOf(r.past), r.ev);
    }
  }

  // ---------------------------------------------------------------- theorems

  /**
   In every run the map holds exactly the timers that are alive and not stopped, one per key: every entry
   names such a timer of its own key, and every such timer is named.
   */
  lemma PendingIsTheLiveTimers(r: Run, key: string, i: nat)
    ensures var s := StateOf(r);
            key in s.pending && s.pending[key] == i <==> i < |s.timers| && s.timers[i].key == key && LiveUnstopped(s.timers[i])
  {
    RunKeeps(r);
  }

  /** No timer resends its answer more than 11 times, and one that is never stopped resends it exactly 11 times. */
  lemma AtMostElevenResends(r: Run, i: nat)
    requires i < |StateOf(r).timers|
    ensures StateOf(r).timers[i].resent <= 11
    ensures StateOf(r).timers[i].elapsed >= GIVE_UP ==> StateOf(r).timers[i].resent == 11
  {
    RunKeeps(r);
    ElevenIsEnough(StateOf(r).timers[i].resent);
  }

  function RunFrom(r: Run, more: seq<Event>): Run
    decreases |more|
  {
    if more == [] then r else RunFrom(After(r, more[0]), more[1..])
  }

  /** Once stopped, by an ACK or by a newer answer, a timer never resends again, however the run goes on. */
  lemma {:induction false} StoppedStaysSilent(r: Run, more: seq<Event>, i: nat)
    requires i < |StateOf(r).timers| && StateOf(r).timers[i].stop
    ensures i < |StateOf(RunFrom(r, more)).timers|
    ensures StateOf(RunFrom(r, more)).timers[i].stop
    ensures StateOf(RunFrom(r, more)).timers[i].resent == StateOf(r).timers[i].resent
    decreases |more|
  {
    if more != [] {
      StoppedStaysSilent(After(r, more[0]), more[1..], i);
    }
  }

  /** An ACK stops the pending answer, and a new answer stops the one before it. */
  lemma AckAndAnswerStop(r: Run, key: string, replace: bool)
    requires key in StateOf(r).pending
    ensures var s := StateOf(After(r, if replace then Answer(key) else Ack(key)));
            var i := StateOf(r).pending[key];
            i < |s.timers| && s.timers[i].stop && (key in s.pending ==> s.pending[key] != i)
  {
    RunKeeps(r);
  }

  /** An expiring timer removes its own entry at most: a newer answer keeps waiting for its ACK. */
  lemma ExpiryKeepsNewer(r: Run, id: nat, key: string)
    requires key in StateOf(r).pending && StateOf(r).pending[key] != id
    ensures var s := StateOf(After(r, Expire(id)));
            key in s.pending && s.pending[key] == StateOf(r).pending[key]
  {
  }

  // -------------------------------------------------------------- the object

  /** The shared map with the timers it points at. */
  class PendingAcks {
    var pending: map<string, nat>
    var timers: seq<Timer>

    ghost function View(): State
      reads this
    {
      State(pending, timers)
    }

    constructor ()
      ensures View() == Init()
    {
      pending, timers := map[], [];
    }

    method SetStop(id: nat)
      modifies this`timers
      ensures timers == Stop(old(timers), id)
    {
      if id < |timers| {
        timers := timers[id := timers[id].(stop := true)];
      }
    }

    method RetransmitUntilAcked(key: Option<string>)
      modifies this
      ensures View() == if key.None? then old(View()) else Step(old(View()), Answer(key.value))
    {
      if key.None? { return; }
      var id := |timers|;
      if key.value in pending {
        SetStop(pending[key.value]);
      }
      pending := pending[key.value := id];
      timers := timers + [Timer(key.value, false, Sleeping, 500, 0, 0)];
    }

    method OnAck(key: Option<string>)
      modifies this
      ensures View() == if key.None? then old(View()) else Step(old(View()), Ack(key.value))
    {
      if key.Some? && key.value in pending {
        SetStop(pending[key.value]);
        pending := pending - {key.value};
      }
    }

    /** The whole life of an undisturbed timer: sleep, resend, back off, give up, drop the own entry. */
    method RunTimer(id: nat)
      requires Inv(View()) && id < |timers| && LiveUnstopped(timers[id]) && timers[id].phase.Sleeping?
      modifies this
      ensures Inv(View()) && |timers| == old(|timers|)
      ensures timers[id].phase.Gone? && timers[id].resent == 11 && timers[id].elapsed == 35500
      ensures pending == old(pending) - {old(timers[id].key)}
      ensures forall i :: 0 <= i < |timers| && i != id ==> timers[i] == old(timers[i])
    {
      hide Inv, LiveUnstopped, Woken;
      while timers[id].phase.Sleeping?
        invariant Inv(View()) && |timers| == old(|timers|) && pending == old(pending)
        invariant LiveUnstopped(timers[id]) && timers[id].key == old(timers[id].key)
        invariant forall i :: 0 <= i < |timers| && i != id ==> timers[i] == old(timers[i])
        invariant !timers[id].phase.Sleeping? ==> timers[id].resent == 11 && timers[id].elapsed == 35500
        decreases 12 - timers[id].resent
      {
        WakeKeeps(View(), id);
        timers := timers[id := Woken(timers[id], true)];
      }
      LeaveKeeps(View(), id);
      if timers[id].key in pending && pending[timers[id].key] == id {
        pending := pending - {timers[id].key};
      }
      timers := timers[id := timers[id].(phase := Gone)];
    }
  }
}
