/** The audio rings between the card and the network (src/audio/alsa_io.rs). */
module AudioRings {
  import opened Util

  type Sample = x: int | -0x8000 <= x < 0x8000

  const MAX_TONE: nat := 64000

  function Max(a: nat, b: nat): nat {
    if a < b then b else a
  }

  /** Backlog a ring is trimmed to: eight samples per millisecond, at least 20 ms. */
  function Target(jitterMs: nat, periodMs: nat): (t: nat)
    ensures t >= 160
  {
    Max(8000 * Max(jitterMs, periodMs) / 1000, 8000 * 20 / 1000)
  }

  /** The audio state; sizes follow from `target`. */
  datatype State = State(
    target: nat,
    toNetwork: seq<Sample>,
    toModem: seq<Sample>,
    tone: seq<Sample>,
    underruns: nat,
    overruns: nat
  )

  function HighWater(target: nat): nat {
    3 * target
  }

  function Initial(jitterMs: nat, periodMs: nat): State {
    State(Target(jitterMs, periodMs), [], [], [], 0, 0)
  }

  // -------------------------------------------------------------------- rings

  /** How many samples a trim of a ring this long removes. */
  function Excess(target: nat, len: nat): (e: nat)
    ensures e <= len
  {
    if len > HighWater(target) then len - target else 0
  }

  /** Everything, unless that passes the high-water mark; then exactly the newest `target` samples. */
  function Trimmed(target: nat, q: seq<Sample>): (r: seq<Sample>)
    ensures |r| <= HighWater(target)
    ensures |q| <= HighWater(target) ==> r == q
    ensures |q| > HighWater(target) ==> |r| == target && r == q[|q| - target..]
  {
    q[Excess(target, |q|)..]
  }

  function Silence(n: nat): (s: seq<Sample>)
    ensures |s| == n && forall i :: 0 <= i < n ==> s[i] == 0
  {
    seq(n, _ => 0)
  }

  /** What `n` pops return: the oldest samples, then silence. */
  function Popped(q: seq<Sample>, n: nat): (out: seq<Sample>)
    ensures |out| == n && forall i :: 0 <= i < n ==> out[i] == if i < |q| then q[i] else 0
  {
    q[..Min(n, |q|)] + Silence(n - Min(n, |q|))
  }

  function Rest(q: seq<Sample>, n: nat): seq<Sample> {
    q[Min(n, |q|)..]
  }

  // --------------------------------------------------------------- operations

  datatype Op =
    | PushFromCard(samples: seq<Sample>)
    | PushFromNetwork(samples: seq<Sample>)
    | QueueTone(samples: seq<Sample>)
    | TakeForNetwork(n: nat)
    | TakeForCard(n: nat)

  predicate ToneFits(s: State, samples: seq<Sample>) {
    |s.tone| + |samples| <= MAX_TONE
  }

  function Bump(target: nat, len: nat): nat {
    if len > HighWater(target) then 1 else 0
  }

  function Step(s: State, op: Op): State {
    match op
    case PushFromCard(samples) =>
      var q := s.toNetwork + samples;
      s.(toNetwork := Trimmed(s.target, q), overruns := s.overruns + Bump(s.target, |q|))
    case PushFromNetwork(samples) =>
      var q := s.toModem + samples;
      s.(toModem := Trimmed(s.target, q), overruns := s.overruns + Bump(s.target, |q|))
    case QueueTone(samples) => if ToneFits(s, samples) then s.(tone := s.tone + samples) else s
    case TakeForNetwork(n) => s.(toNetwork := Rest(s.toNetwork, n))
    case TakeForCard(n) =>
      if s.tone != [] then s.(tone := Rest(s.tone, n), toModem := Rest(s.toModem, n))
      else s.(toModem := Rest(s.toModem, n), underruns := s.underruns + if |s.toModem| < n then 1 else 0)
  }

  /** The samples an operation hands out. */
  function Output(s: State, op: Op): seq<Sample> {
    match op
    case TakeForNetwork(n) => Popped(s.toNetwork, n)
    case TakeForCard(n) => if s.tone != [] then Popped(s.tone, n) else Popped(s.toModem, n)
    case _ => []
  }

  /** A sequence of operations, the latest outermost. */
  datatype Run = Begin(jitterMs: nat, periodMs: nat) | After(past: Run, op: Op)

  function Reached(r: Run): State {
    match r
    case Begin(j, p) => Initial(j, p)
    case After(past, op) => Step(Reached(past), op)
  }

  // ------------------------------------------------------------- conservation

  /** What became of a sample that left its ring. */
  datatype Gone = Delivered(sample: Sample) | Dropped(sample: Sample)

  function AllDelivered(q: seq<Sample>): (g: seq<Gone>)
    ensures |g| == |q| && forall i :: 0 <= i < |q| ==> g[i] == Delivered(q[i])
  {
    seq(|q|, i requires 0 <= i < |q| => Delivered(q[i]))
  }

  function AllDropped(q: seq<Sample>): (g: seq<Gone>)
    ensures |g| == |q| && forall i :: 0 <= i < |q| ==> g[i] == Dropped(q[i])
  {
    seq(|q|, i requires 0 <= i < |q| => Dropped(q[i]))
  }

  function Samples(g: seq<Gone>): (q: seq<Sample>)
    ensures |q| == |g| && forall i :: 0 <= i < |g| ==> q[i] == g[i].sample
  {
    seq(|g|, i requires 0 <= i < |g| => g[i].sample)
  }

  datatype Ring = ToNetwork | ToModem | Tone

  function Queue(s: State, ring: Ring): seq<Sample> {
    match ring
    case ToNetwork => s.toNetwork
    case ToModem => s.toModem
    case Tone => s.tone
  }

  /** Samples accepted into a ring by one operation. */
  function In(s: State, op: Op, ring: Ring): seq<Sample> {
    match op
    case PushFromCard(samples) => if ring.ToNetwork? then samples else []
    case PushFromNetwork(samples) => if ring.ToModem? then samples else []
    case QueueTone(samples) => if ring.Tone? && ToneFits(s, samples) then samples else []
    case _ => []
  }

  /** The real samples, not padding, that one operation hands out from a ring. */
  function Handed(s: State, op: Op, ring: Ring): seq<Sample> {
    match op
    case TakeForNetwork(n) => if ring.ToNetwork? then Output(s, op)[..Min(n, |s.toNetwork|)] else []
    case TakeForCard(n) =>
      if ring.Tone? && s.tone != [] then Output(s, op)[..Min(n, |s.tone|)]
      else if ring.ToModem? && s.tone == [] then Output(s, op)[..Min(n, |s.toModem|)]
      else []
    case _ => []
  }

  /** The samples one operation discards from a ring: trimmed, or talked over by a tone. */
  function Lost(s: State, op: Op, ring: Ring): seq<Sample> {
    match op
    case PushFromCard(samples) =>
      var q := s.toNetwork + samples;
      if ring.ToNetwork? then q[..Excess(s.target, |q|)] else []
    case PushFromNetwork(samples) =>
      var q := s.toModem + samples;
      if ring.ToModem? then q[..Excess(s.target, |q|)] else []
    case TakeForCard(n) => if ring.ToModem? && s.tone != [] then s.toModem[..Min(n, |s.toModem|)] else []
    case _ => []
  }

  function Accepted(r: Run, ring: Ring): seq<Sample> {
    match r
    case Begin(_, _) => []
    case After(past, op) => Accepted(past, ring) + In(Reached(past), op, ring)
  }

  /** Everything that left a ring, in order. */
  function Log(r: Run, ring: Ring): seq<Gone> {
    match r
    case Begin(_, _) => []
    case After(past, op) =>
      Log(past, ring) + AllDelivered(Handed(Reached(past), op, ring)) + AllDropped(Lost(Reached(past), op, ring))
  }

  /** One operation: old queue and new arrivals are what leaves followed by the new queue. */
  lemma StepConserves(s: State, op: Op, ring: Ring)
    ensures Queue(s, ring) + In(s, op, ring)
         == Handed(s, op, ring) + Lost(s, op, ring) + Queue(Step(s, op), ring)
  {
    match op {
      case PushFromCard(samples) => PushConserves(s, op, ring);
      case PushFromNetwork(samples) => PushConserves(s, op, ring);
      case QueueTone(_) => ToneConserves(s, op, ring);
      case TakeForNetwork(n) => TakeConserves(s, op, ring);
      case TakeForCard(n) => TakeConserves(s, op, ring);
    }
  }

  lemma PushConserves(s: State, op: Op, ring: Ring)
    requires op.PushFromCard? || op.PushFromNetwork?
    ensures Queue(s, ring) + In(s, op, ring) == Handed(s, op, ring) + Lost(s, op, ring) + Queue(Step(s, op), ring)
  {
    hide Excess, Trimmed, HighWater;
    var q := Queue(s, ring) + op.samples;
    if (op.PushFromCard? && ring.ToNetwork?) || (op.PushFromNetwork? && ring.ToModem?) {
      assert Lost(s, op, ring) == q[..Excess(s.target, |q|)] && Queue(Step(s, op), ring) == Trimmed(s.target, q);
      Absent(Lost(s, op, ring));
      TrimSplits(s.target, q);
    } else {
      Absent(Queue(s, ring));
    }
  }

  lemma ToneConserves(s: State, op: Op, ring: Ring)
    requires op.QueueTone?
    ensures Queue(s, ring) + In(s, op, ring) == Handed(s, op, ring) + Lost(s, op, ring) + Queue(Step(s, op), ring)
  {
    Absent(Queue(Step(s, op), ring));
    Absent(Queue(s, ring));
  }

  lemma TakeConserves(s: State, op: Op, ring: Ring)
    requires op.TakeForNetwork? || op.TakeForCard?
    ensures Queue(s, ring) + In(s, op, ring) == Handed(s, op, ring) + Lost(s, op, ring) + Queue(Step(s, op), ring)
  {
    hide Popped, Rest;
    var q, n := Queue(s, ring), op.n;
    PopSplits(q, n);
    Absent(q);
    Absent(q[..Min(n, |q|)]);
  }

  lemma Absent(q: seq<Sample>)
    ensures q + [] == q && [] + q == q && [] + [] + q == q
  {
  }

  lemma TrimSplits(target: nat, q: seq<Sample>)
    ensures q == q[..Excess(target, |q|)] + Trimmed(target, q)
  {
  }

  lemma PopSplits(q: seq<Sample>, n: nat)
    ensures Popped(q, n)[..Min(n, |q|)] == q[..Min(n, |q|)] && q == q[..Min(n, |q|)] + Rest(q, n)
  {
  }

  lemma Regroup(log: seq<Gone>, a: seq<Sample>, b: seq<Sample>, q: seq<Sample>, was: seq<Sample>, arrived: seq<Sample>)
    requires was + arrived == a + b + q
    ensures Samples(log) + was + arrived == Samples(log + AllDelivered(a) + AllDropped(b)) + q
  {
    assert Samples(log + AllDelivered(a) + AllDropped(b)) == Samples(log) + a + b;
    assert Samples(log) + was + arrived == Samples(log) + (was + arrived);
    assert Samples(log) + (a + b + q) == Samples(log) + a + b + q;
  }

  /** In every run and every ring: accepted = delivered and dropped, in arrival order, then what is queued. */
  lemma {:induction false} Conservation(r: Run, ring: Ring)
    ensures Accepted(r, ring) == Samples(Log(r, ring)) + Queue(Reached(r), ring)
  {
    match r {
      case Begin(_, _) =>
      case After(past, op) =>
        hide Step, In, Handed, Lost, Queue, Samples, AllDelivered, AllDropped;
        Conservation(past, ring);
        var s := Reached(past);
        StepConserves(s, op, ring);
        Regroup(Log(past, ring), Handed(s, op, ring), Lost(s, op, ring), Queue(Step(s, op), ring),
                Queue(s, ring), In(s, op, ring));
    }
  }

  predicate Bounded(s: State) {
    && s.target >= 160
    && |s.toNetwork| <= HighWater(s.target)
    && |s.toModem| <= HighWater(s.target)
    && |s.tone| <= MAX_TONE
  }

  lemma StepBounded(s: State, op: Op)
    requires Bounded(s)
    ensures Bounded(Step(s, op))
  {
    hide Trimmed, HighWater;
  }

  /** No ring is ever left longer than its high-water mark, and queued tones never exceed 64000 samples. */
  lemma {:induction false} RunIsBounded(r: Run)
    ensures Bounded(Reached(r))
  {
    hide Step;
    if r.After? {
      hide Bounded;
      RunIsBounded(r.past);
      StepBounded(Reached(r.past), r.op);
    }
  }

  // -------------------------------------------------------------------- tones

  /** Nothing of an accepted tone is ever dropped or reordered: the card gets the tones whole, one after the other. */
  lemma {:induction false} TonesAreUncut(r: Run)
    ensures forall i :: 0 <= i < |Log(r, Tone)| ==> Log(r, Tone)[i].Delivered?
    ensures Samples(Log(r, Tone)) + Reached(r).tone == Accepted(r, Tone)
  {
    hide Reached;
    Conservation(r, Tone);
    ToneNeverDropped(r);
  }

  lemma {:induction false} ToneNeverDropped(r: Run)
    ensures forall i :: 0 <= i < |Log(r, Tone)| ==> Log(r, Tone)[i].Delivered?
  {
    if r.After? {
      hide Reached, Handed;
      ToneNeverDropped(r.past);
    }
  }

  /** A step that counts no overrun loses nothing towards the network. */
  lemma StepLoses(s: State, op: Op)
    ensures s.overruns <= Step(s, op).overruns
    ensures Step(s, op).overruns == s.overruns ==> Lost(s, op, ToNetwork) == []
  {
    hide Trimmed, Rest, Popped;
  }

  /** The network side loses audio only to trims, and each trim is counted. */
  lemma {:induction false} NoOverrunNoLoss(r: Run)
    requires Reached(r).overruns == 0
    ensures forall i :: 0 <= i < |Log(r, ToNetwork)| ==> Log(r, ToNetwork)[i].Delivered?
  {
    hide Step, Lost, Handed;
    if r.After? {
      StepLoses(Reached(r.past), r.op);
      NoOverrunNoLoss(r.past);
    }
  }

  // ------------------------------------------------------------ the rings in place

  lemma PopNone(ring: seq<Sample>)
    ensures Popped(ring, 0) == [] && Rest(ring, 0) == ring
  {
  }

  lemma PopStep(ring: seq<Sample>, i: nat)
    ensures var rest := Rest(ring, i);
            && Popped(ring, i + 1) == Popped(ring, i) + [if rest != [] then rest[0] else 0]
            && Rest(ring, i + 1) == if rest != [] then rest[1..] else rest
  {
    assert i < |ring| ==> Rest(ring, i)[0] == ring[i];
  }

  class Rings {
    var toNetwork: seq<Sample>
    var toModem: seq<Sample>
    var tone: seq<Sample>
    const target: nat
    const highWater: nat
    var underruns: nat
    var overruns: nat

    ghost predicate Valid()
      reads this
    {
      highWater == HighWater(target)
    }

    ghost function View(): State
      reads this
    {
      State(target, toNetwork, toModem, tone, underruns, overruns)
    }

    constructor (jitterMs: nat, periodMs: nat)
      ensures Valid() && View() == Initial(jitterMs, periodMs)
    {
      var t := Target(jitterMs, periodMs);
      target := t;
      highWater := t * 3;
      toNetwork, toModem, tone := [], [], [];
      underruns, overruns := 0, 0;
    }

    /** Gives back the delay beyond the target; the ring is passed in and returned. */
    method Trim(ring: seq<Sample>) returns (kept: seq<Sample>)
      requires Valid()
      modifies this`overruns
      ensures kept == Trimmed(target, ring) && overruns == old(overruns) + Bump(target, |ring|)
    {
      kept := ring;
      if |kept| > highWater {
        var excess := |kept| - target;
        kept := kept[excess..];
        overruns := overruns + 1;
      }
    }

    method DoPushFromCard(samples: seq<Sample>)
      requires Valid()
      modifies this
      ensures Valid() && View() == Step(old(View()), PushFromCard(samples))
    {
      toNetwork := toNetwork + samples;
      toNetwork := Trim(toNetwork);
    }

    method DoPushFromNetwork(samples: seq<Sample>)
      requires Valid()
      modifies this
      ensures Valid() && View() == Step(old(View()), PushFromNetwork(samples))
    {
      toModem := toModem + samples;
      toModem := Trim(toModem);
    }

    method DoQueueTone(samples: seq<Sample>) returns (ok: bool)
      requires Valid()
      modifies this
      ensures Valid() && View() == Step(old(View()), QueueTone(samples)) && ok == ToneFits(old(View()), samples)
    {
      if |tone| + |samples| > MAX_TONE { return false; }
      tone := tone + samples;
      return true;
    }

    method DoTakeForNetwork(n: nat) returns (out: seq<Sample>)
      requires Valid()
      modifies this
      ensures Valid() && View() == Step(old(View()), TakeForNetwork(n)) && out == Output(old(View()), TakeForNetwork(n))
    {
      out, toNetwork := Pop(toNetwork, n);
    }

    method DoTakeForCard(n: nat) returns (out: seq<Sample>)
      requires Valid()
      modifies this
      ensures Valid() && View() == Step(old(View()), TakeForCard(n)) && out == Output(old(View()), TakeForCard(n))
    {
      if tone != [] {
        out, tone := Pop(tone, n);
        var _, rest := Pop(toModem, n);
        toModem := rest;
        return;
      }
      if |toModem| < n {
        underruns := underruns + 1;
      }
      out, toModem := Pop(toModem, n);
    }

    /** `n` times the oldest sample, or silence once the ring is empty. */
    static method Pop(ring: seq<Sample>, n: nat) returns (out: seq<Sample>, rest: seq<Sample>)
      ensures out == Popped(ring, n) && rest == Rest(ring, n)
    {
      hide Popped, Rest;
      PopNone(ring);
      out, rest := [], ring;
      for i := 0 to n
        invariant rest == Rest(ring, i) && out == Popped(ring, i)
      {
        PopStep(ring, i);
        if rest != [] {
          out, rest := out + [rest[0]], rest[1..];
        } else {
          out := out + [0];
        }
      }
    }
  }
}
