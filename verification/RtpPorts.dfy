/** Binding an RTP port (src/media.rs): a walk over the even ports of the range from a random start. */
module RtpPorts {
  import opened Util

  const MAX_PORT: nat := 65535

  predicate IsEven(n: nat) {
    n % 2 == 0
  }

  /** `n & !1`. */
  function EvenBelow(n: nat): (e: nat)
    ensures IsEven(e) && e <= n < e + 2
  {
    n - n % 2
  }

  /** The first candidate; the addition stops at the largest port. */
  function First(min: nat): nat {
    EvenBelow(if min < MAX_PORT then min + 1 else MAX_PORT)
  }

  /** The last candidate, if there is one. */
  function Last(min: nat, max: nat): (r: Option<nat>)
    ensures r.Some? ==> First(min) <= r.value && IsEven(r.value) && r.value + 1 <= max
  {
    if max >= 1 && max - 1 >= First(min) then Some(EvenBelow(max - 1)) else None
  }

  function Slots(first: nat, last: nat): (n: nat)
    requires first <= last
    ensures n > 0
  {
    (last - first) / 2 + 1
  }

  /** The port tried at attempt `i` of a walk that starts at slot `pick`. */
  function Tried(first: nat, slots: nat, pick: nat, i: nat): nat
    requires slots > 0
  {
    first + 2 * ((pick + i) % slots)
  }

  /** An even port of the range whose odd partner is in the range too. */
  predicate Candidate(min: nat, max: nat, p: nat) {
    IsEven(p) && min <= p && p + 1 <= max
  }

  /** The walk's ports are the pairs of the range, and they are exactly that below the top port. */
  lemma CandidatesAreThePairs(min: nat, max: nat, p: nat)
    requires min < MAX_PORT && max <= MAX_PORT
    ensures Candidate(min, max, p) <==> Last(min, max).Some? && IsEven(p) && First(min) <= p <= Last(min, max).value
  {
  }

  /** Ports that lie between the candidates at either end, and are even, are candidates. */
  lemma AllCandidates(min: nat, max: nat, tried: seq<nat>)
    requires min < max <= MAX_PORT && Last(min, max).Some? && Distinct(tried, First(min), Last(min, max).value)
    ensures forall i :: 0 <= i < |tried| ==> Candidate(min, max, tried[i])
  {
    hide First, Last, Candidate;
    forall i | 0 <= i < |tried|
      ensures Candidate(min, max, tried[i])
    {
      CandidatesAreThePairs(min, max, tried[i]);
    }
  }

  lemma EveryCandidateTried(min: nat, max: nat, tried: seq<nat>, p: nat)
    requires min < max <= MAX_PORT && Last(min, max).Some? && Exhausted(tried, First(min), Last(min, max).value)
    ensures Candidate(min, max, p) ==> p in tried
  {
    hide First, Last, Candidate;
    CandidatesAreThePairs(min, max, p);
  }

  /** There is a first candidate exactly when there is any. */
  lemma SomeCandidate(min: nat, max: nat)
    requires min < max <= MAX_PORT
    ensures Last(min, max).Some? <==> exists p: nat :: Candidate(min, max, p)
  {
    if Last(min, max).Some? {
      CandidatesAreThePairs(min, max, Last(min, max).value);
    }
    if p: nat :| Candidate(min, max, p) {
      CandidatesAreThePairs(min, max, p);
    }
  }

  lemma ModOnce(a: nat, n: nat)
    requires 0 < n && a < 2 * n
    ensures a % n == if a < n then a else a - n
  {
    if a >= n {
      assert a == n + (a - n);
      ModAdd(a - n, n);
    }
  }

  lemma ModAdd(b: nat, n: nat)
    requires b < n
    ensures (b + n) % n == b
  {
    assert (b + n) / n == 1;
  }

  /** Every slot is tried, once, in `slots` attempts. */
  lemma WalkCovers(first: nat, last: nat, pick: nat, p: nat) returns (i: nat)
    requires first <= last && IsEven(first) && IsEven(last) && IsEven(p) && first <= p <= last
    requires pick < Slots(first, last)
    ensures var n := Slots(first, last);
            && i < n && Tried(first, n, pick, i) == p
            && forall j :: 0 <= j < n && Tried(first, n, pick, j) == p ==> j == i
  {
    var n := Slots(first, last);
    var slot := (p - first) / 2;
    assert slot < n && p == first + 2 * slot;
    i := if slot >= pick then slot - pick else slot + n - pick;
    ModOnce(pick + i, n);
    forall j | 0 <= j < n && Tried(first, n, pick, j) == p
      ensures j == i
    {
      ModOnce(pick + j, n);
    }
  }

  /** The next port of the walk, as the loop computes it. */
  lemma WalkSteps(first: nat, last: nat, pick: nat, i: nat)
    requires first <= last && IsEven(first) && IsEven(last) && pick < Slots(first, last) && i < Slots(first, last)
    ensures var n := Slots(first, last); var p := Tried(first, n, pick, i);
            first <= p <= last && IsEven(p) && Tried(first, n, pick, i + 1) == if p >= last then first else p + 2
  {
    var n := Slots(first, last);
    ModOnce(pick + i, n);
    if pick + i + 1 < 2 * n {
      ModOnce(pick + i + 1, n);
    }
  }

  datatype Outcome = Free | Busy | Refused

  datatype Result = NoPair | Bound(port: nat) | Unbindable(port: nat) | AllBusy

  /** The first `k` ports of the walk. */
  function Prefix(first: nat, slots: nat, pick: nat, k: nat): (s: seq<nat>)
    requires slots > 0
    ensures |s| == k && forall i :: 0 <= i < k ==> s[i] == Tried(first, slots, pick, i)
  {
    seq(k, i requires 0 <= i < k => Tried(first, slots, pick, i))
  }

  /** Different even ports between `first` and `last`. */
  predicate Distinct(tried: seq<nat>, first: nat, last: nat) {
    && (forall i :: 0 <= i < |tried| ==> IsEven(tried[i]) && first <= tried[i] <= last)
    && (forall i, j :: 0 <= i < j < |tried| ==> tried[i] != tried[j])
  }

  /** Every even port between `first` and `last`. */
  predicate Exhausted(tried: seq<nat>, first: nat, last: nat) {
    forall p: nat :: IsEven(p) && first <= p <= last ==> p in tried
  }

  predicate AllBusyBefore(outcome: nat -> Outcome, k: nat) {
    forall i :: 0 <= i < k ==> outcome(i) == Busy
  }

  lemma PrefixDistinct(first: nat, last: nat, pick: nat, k: nat)
    requires first <= last && IsEven(first) && IsEven(last) && pick < Slots(first, last) && k <= Slots(first, last)
    ensures Distinct(Prefix(first, Slots(first, last), pick, k), first, last)
  {
    hide Tried;
    var n := Slots(first, last);
    var s := Prefix(first, n, pick, k);
    forall i | 0 <= i < k
      ensures IsEven(s[i]) && first <= s[i] <= last
    {
      WalkSteps(first, last, pick, i);
    }
    forall i, j | 0 <= i < j < k
      ensures s[i] != s[j]
    {
      WalkSteps(first, last, pick, i);
      var w := WalkCovers(first, last, pick, s[i]);
      assert Tried(first, n, pick, i) == s[i];
      assert Tried(first, n, pick, j) == s[j];
    }
  }

  lemma PrefixExhausts(first: nat, last: nat, pick: nat)
    requires first <= last && IsEven(first) && IsEven(last) && pick < Slots(first, last)
    ensures Exhausted(Prefix(first, Slots(first, last), pick, Slots(first, last)), first, last)
  {
    hide Tried, Slots;
    var tried := Prefix(first, Slots(first, last), pick, Slots(first, last));
    forall p: nat | IsEven(p) && first <= p <= last
      ensures p in tried
    {
      var i := WalkCovers(first, last, pick, p);
      assert tried[i] == p;
    }
  }

  lemma PickTried(first: nat, slots: nat, pick: nat)
    requires pick < slots
    ensures Tried(first, slots, pick, 0) == first + 2 * pick
  {
    ModOnce(pick, slots);
  }

  /**
   `random` is the random number, `outcome(i)` what the operating system says to attempt `i`.
   A port that is bound was tried after only busy ones; giving up means every candidate was busy once.
   In a range that `Config::validate` admits, with the minimum below the maximum, every port tried is an even
   port of the range with its partner, and there is none only if the range holds no such pair.
   */
  method BindPort(min: nat, max: nat, random: nat, outcome: nat -> Outcome) returns (r: Result, ghost tried: seq<nat>)
    requires min <= MAX_PORT && max <= MAX_PORT
    ensures r.NoPair? <==> Last(min, max).None?
    ensures !r.NoPair? ==> Distinct(tried, First(min), Last(min, max).value)
    ensures r.Bound? || r.Unbindable? ==>
              && tried != [] && tried[|tried| - 1] == r.port
              && outcome(|tried| - 1) == (if r.Bound? then Free else Refused)
              && AllBusyBefore(outcome, |tried| - 1)
    ensures r.AllBusy? ==> AllBusyBefore(outcome, |tried|) && Exhausted(tried, First(min), Last(min, max).value)
    ensures min < max ==> forall i :: 0 <= i < |tried| ==> Candidate(min, max, tried[i])
    ensures min < max && r.NoPair? ==> forall p: nat :: !Candidate(min, max, p)
    ensures min < max && r.AllBusy? ==> forall p: nat :: Candidate(min, max, p) ==> p in tried
  {
    hide Tried, Slots, First, Exhausted, Distinct, Candidate;
    tried := [];
    var first := First(min);
    var end := Last(min, max);
    if end.None? {
      if min < max { SomeCandidate(min, max); }
      return NoPair, [];
    }
    var last := end.value;
    var slots := Slots(first, last);
    var pick := random % slots;
    assert IsEven(first) by { FirstIsEven(min); }
    PickTried(first, slots, pick);
    var port := first + 2 * pick;
    for k := 0 to slots
      invariant port == Tried(first, slots, pick, k)
      invariant tried == Prefix(first, slots, pick, k)
      invariant AllBusyBefore(outcome, k)
    {
      tried := tried + [port];
      assert tried == Prefix(first, slots, pick, k + 1);
      var o := outcome(k);
      if o != Busy {
        PrefixDistinct(first, last, pick, k + 1);
        if min < max { AllCandidates(min, max, tried); }
        return if o == Free then Bound(port) else Unbindable(port), tried;
      }
      WalkSteps(first, last, pick, k);
      port := if port >= last then first else port + 2;
    }
    PrefixDistinct(first, last, pick, slots);
    PrefixExhausts(first, last, pick);
    if min < max {
      AllCandidates(min, max, tried);
      forall p: nat
        ensures Candidate(min, max, p) ==> p in tried
      {
        EveryCandidateTried(min, max, tried, p);
      }
    }
    return AllBusy, tried;
  }

  lemma FirstIsEven(min: nat)
    ensures IsEven(First(min))
  {
  }
}
