/**
 Digest nonces of src/sip/auth.rs and the replay protection of src/sip/core.rs.  The hash is
 an arbitrary function of the time stamp (the secret is inside it); one clock in milliseconds
 serves both the wall-clock seconds of the nonce and the monotonic instants of the counters.
 */
module NonceCounts {
  import opened Util
  import opened Text

  type Digest = int -> string

  /** `str::parse::<i64>`. */
  function ParseSigned(s: string): Option<int> {
    var body := if s != [] && (s[0] == '-' || s[0] == '+') then s[1..] else s;
    if body == [] || !AllDigits(body) then None
    else
      var n: int := DecimalValue(body);
      var v: int := if s[0] == '-' then -n else n;
      if -0x8000_0000_0000_0000 <= v < 0x8000_0000_0000_0000 then Some(v) else None
  }

  function Seconds(now: nat): nat {
    now / 1000
  }

  function Issue(digest: Digest, now: nat): string {
    Decimal(Seconds(now)) + ":" + digest(Seconds(now))
  }

  /** The time stamp of a nonce this factory issued. */
  function Stamp(digest: Digest, nonce: string): Option<int> {
    match SplitOnce(nonce, ':')
    case None => None
    case Some((ts, d)) =>
      var n := ParseSigned(ts);
      if n.Some? && digest(n.value) == d then n else None
  }

  predicate IsValid(digest: Digest, nonce: string, maxAge: nat, now: nat) {
    var ts := Stamp(digest, nonce);
    ts.Some? && 0 <= Seconds(now) - ts.value <= maxAge
  }

  /** A nonce is valid for exactly `maxAge` seconds from the second it was issued in. */
  lemma IssuedNonceIsValid(digest: Digest, issued: nat, maxAge: nat, now: nat)
    requires Seconds(issued) < 0x8000_0000_0000_0000
    ensures IsValid(digest, Issue(digest, issued), maxAge, now) <==> 0 <= Seconds(now) - Seconds(issued) <= maxAge
  {
    var ts := Decimal(Seconds(issued));
    assert ':' !in ts by {
      assert forall c <- ts :: IsDigit(c);
    }
    SplitOnceAt(ts, ':', digest(Seconds(issued)));
    assert Issue(digest, issued) == ts + [':'] + digest(Seconds(issued));
    DecimalRoundTrip(Seconds(issued));
    assert IsDigit(ts[0]);
  }

  // ------------------------------------------------------------ nonce counts

  datatype Entry = Entry(highest: nat, first: nat)

  type Seen = map<string, Entry>

  predicate MayClaim(seen: Seen, nonce: string, nc: nat) {
    nonce in seen ==> nc > seen[nonce].highest
  }

  function Claimed(seen: Seen, nonce: string, nc: nat, now: nat): Seen {
    if nonce !in seen then seen[nonce := Entry(nc, now)]
    else if nc > seen[nonce].highest then seen[nonce := seen[nonce].(highest := nc)]
    else seen
  }

  const FORGET_AFTER: nat := 600_000
  const MAX_AGE_SECS: nat := 300

  function Collected(seen: Seen, now: nat): Seen {
    if |seen| > 64 then map n | n in seen && now - seen[n].first < FORGET_AFTER :: seen[n] else seen
  }

  datatype Op =
    | Check(nonce: string, nc: nat, credentialsOk: bool, now: nat)
    | Gc(now: nat)

  datatype Ops = Begin | After(past: Ops, op: Op)

  function Clock(ops: Ops): nat {
    if ops.Begin? then 0 else ops.op.now
  }

  predicate Ordered(ops: Ops) {
    ops.Begin? || (Ordered(ops.past) && Clock(ops.past) <= ops.op.now)
  }

  /** The nonce is claimed only for credentials that are otherwise right. */
  predicate Reaches(digest: Digest, op: Op) {
    op.Check? && op.credentialsOk && IsValid(digest, op.nonce, MAX_AGE_SECS, op.now)
  }

  function SeenOf(digest: Digest, ops: Ops): Seen {
    match ops
    case Begin => map[]
    case After(past, Gc(now)) => Collected(SeenOf(digest, past), now)
    case After(past, Check(nonce, nc, _, now)) =>
      if Reaches(digest, ops.op) then Claimed(SeenOf(digest, past), nonce, nc, now) else SeenOf(digest, past)
  }

  /** Did `check_auth` let the newest request through? */
  predicate Accepts(digest: Digest, ops: Ops) {
    ops.After? && Reaches(digest, ops.op) && MayClaim(SeenOf(digest, ops.past), ops.op.nonce, ops.op.nc)
  }

  /** The counts accepted for one nonce string over a run, in order. */
  function AcceptedCounts(digest: Digest, ops: Ops, nonce: string): seq<nat> {
    if ops.Begin? then []
    else
      AcceptedCounts(digest, ops.past, nonce) +
      if Accepts(digest, ops) && ops.op.nonce == nonce then [ops.op.nc] else []
  }

  /** A nonce that was used is either still counted, or so old that it can never be valid again. */
  ghost predicate CountedOrExpired(digest: Digest, ops: Ops, nonce: string) {
    var counts := AcceptedCounts(digest, ops, nonce);
    var seen := SeenOf(digest, ops);
    var ts := Stamp(digest, nonce);
    && (nonce in seen ==> ts.Some? && seen[nonce].first >= 1000 * ts.value)
    && (counts != [] && nonce in seen ==> seen[nonce].highest == counts[|counts| - 1])
    && (counts != [] && nonce !in seen ==> ts.Some? && Clock(ops) >= 1000 * ts.value + FORGET_AFTER)
    && (counts == [] ==> nonce !in seen)
  }

  lemma ValidityWindow(digest: Digest, nonce: string, now: nat)
    requires IsValid(digest, nonce, MAX_AGE_SECS, now)
    ensures var ts := Stamp(digest, nonce).value;
            1000 * ts <= now < 1000 * ts + 301_000
  {
  }

  lemma {:induction false} CountsAreKept(digest: Digest, ops: Ops, nonce: string)
    requires Ordered(ops)
    ensures CountedOrExpired(digest, ops, nonce)
  {
    if ops.After? {
      CountsAreKept(digest, ops.past, nonce);
      if Reaches(digest, ops.op) {
        ValidityWindow(digest, ops.op.nonce, ops.op.now);
      }
    }
  }

  ghost predicate StrictlyIncreasing(counts: seq<nat>) {
    forall i, j :: 0 <= i < j < |counts| ==> counts[i] < counts[j]
  }

  /** In every run the counts accepted for a nonce strictly increase, although collection forgets nonces. */
  lemma {:induction false} CountsIncrease(digest: Digest, ops: Ops, nonce: string)
    requires Ordered(ops)
    ensures StrictlyIncreasing(AcceptedCounts(digest, ops, nonce))
  {
    if ops.After? {
      CountsIncrease(digest, ops.past, nonce);
      CountsAreKept(digest, ops.past, nonce);
      if Accepts(digest, ops) && ops.op.nonce == nonce {
        ValidityWindow(digest, nonce, ops.op.now);
        var before := AcceptedCounts(digest, ops.past, nonce);
        assert before != [] ==> before[|before| - 1] < ops.op.nc;
        assert forall i :: 0 <= i < |before| ==> before[i] <= before[|before| - 1];
      }
    }
  }

  /** So no pair of nonce and count is ever accepted twice. */
  lemma NoReplay(digest: Digest, ops: Ops)
    requires Ordered(ops) && Accepts(digest, ops)
    ensures ops.op.nc !in AcceptedCounts(digest, ops.past, ops.op.nonce)
  {
    CountsIncrease(digest, ops, ops.op.nonce);
    var counts := AcceptedCounts(digest, ops, ops.op.nonce);
    var before := AcceptedCounts(digest, ops.past, ops.op.nonce);
    assert counts == before + [ops.op.nc];
    forall i | 0 <= i < |before|
      ensures before[i] < ops.op.nc
    {
      assert counts[i] < counts[|before|];
    }
  }

  /** A fresh count on a valid, still counted nonce is accepted: the protection refuses nothing else. */
  lemma HigherCountIsAccepted(digest: Digest, past: Ops, nonce: string, nc: nat, now: nat)
    requires Ordered(past) && Clock(past) <= now && IsValid(digest, nonce, MAX_AGE_SECS, now)
    requires forall c <- AcceptedCounts(digest, past, nonce) :: c < nc
    ensures Accepts(digest, After(past, Check(nonce, nc, true, now)))
  {
    CountsAreKept(digest, past, nonce);
    var counts := AcceptedCounts(digest, past, nonce);
    if counts != [] {
      assert counts[|counts| - 1] in counts;
    }
  }

  // -------------------------------------------------------------- the object

  class NonceTable {
    var seen: Seen

    constructor ()
      ensures seen == map[]
    {
      seen := map[];
    }

    method ClaimNonce(nonce: string, nc: nat, now: nat) returns (ok: bool)
      modifies this
      ensures ok == MayClaim(old(seen), nonce, nc) && seen == Claimed(old(seen), nonce, nc, now)
    {
      if nonce in seen {
        if nc > seen[nonce].highest {
          seen := seen[nonce := Entry(nc, seen[nonce].first)];
          return true;
        }
        return false;
      }
      seen := seen[nonce := Entry(nc, now)];
      return true;
    }

    /** `check_auth` from the point where credentials were supplied. */
    method CheckAuth(digest: Digest, nonce: string, nc: nat, credentialsOk: bool, now: nat, ghost past: Ops) returns (ok: bool)
      requires seen == SeenOf(digest, past)
      modifies this
      ensures var ops := After(past, Check(nonce, nc, credentialsOk, now));
              ok == Accepts(digest, ops) && seen == SeenOf(digest, ops)
    {
      ok := false;
      if credentialsOk && IsValid(digest, nonce, MAX_AGE_SECS, now) {
        ok := ClaimNonce(nonce, nc, now);
      }
    }

    method Collect(now: nat)
      modifies this
      ensures seen == Collected(old(seen), now)
    {
      if |seen| <= 64 { return; }
      var todo := seen.Keys;
      while todo != {}
        invariant todo <= old(seen.Keys)
        invariant seen == map n | n in old(seen) && (n in todo || now - old(seen)[n].first < FORGET_AFTER) :: old(seen)[n]
        decreases |todo|
      {
        var n :| n in todo;
        if now - seen[n].first >= FORGET_AFTER {
          seen := seen - {n};
        }
        todo := todo - {n};
      }
    }
  }
}
