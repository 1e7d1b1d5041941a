/**
 Server transactions of src/sip/core.rs: a request is claimed before any work starts and
 a retransmission is answered from the cache, which garbage collection may empty.
 Times are milliseconds of one non-decreasing clock.
 */
module ServerTransactions {
  import opened Util
  import opened Text
  import M = SipMessage

  type Key = string
  type Bytes = seq<nat>

  datatype ServerTxn =
    | InProgress(since: nat, provisional: Option<Bytes>)
    | Completed(response: Bytes, at: nat)

  function StartedAt(t: ServerTxn): nat {
    match t
    case InProgress(since, _) => since
    case Completed(_, at) => at
  }

  const TXN_LIFETIME: nat := 32000

  predicate Live(t: ServerTxn, now: nat) {
    now - StartedAt(t) < TXN_LIFETIME
  }

  datatype Claim = Fresh | InFlight(provisional: Option<Bytes>) | Replay(response: Bytes)

  type Cache = map<Key, ServerTxn>

  function ClaimOf(cache: Cache, key: Key, now: nat): Claim {
    if key in cache && Live(cache[key], now) then
      match cache[key]
      case Completed(response, _) => Replay(response)
      case InProgress(_, provisional) => InFlight(provisional)
    else Fresh
  }

  function Claimed(cache: Cache, key: Key, now: nat): Cache {
    if ClaimOf(cache, key, now).Fresh? then cache[key := InProgress(now, None)] else cache
  }

  function Responded(cache: Cache, key: Key, code: nat, bytes: Bytes, now: nat): Cache {
    if code >= 200 then cache[key := Completed(bytes, now)]
    else if key in cache && cache[key].InProgress? then cache[key := cache[key].(provisional := Some(bytes))]
    else cache
  }

  function Collected(cache: Cache, now: nat): Cache {
    if |cache| > 64 then map k | k in cache && Live(cache[k], now) :: cache[k] else cache
  }

  // ---------------------------------------------------------------- every run

  datatype Op =
    | Arrive(key: Key, now: nat)
    | Respond(key: Key, code: nat, bytes: Bytes, now: nat)
    | Gc(now: nat)

  /** A run: the newest operation is `op`. */
  datatype Ops = Begin | After(past: Ops, op: Op)

  function Clock(ops: Ops): nat {
    if ops.Begin? then 0 else ops.op.now
  }

  predicate Ordered(ops: Ops) {
    ops.Begin? || (Ordered(ops.past) && Clock(ops.past) <= ops.op.now)
  }

  /** The cache after a run. */
  function CacheOf(ops: Ops): Cache {
    match ops
    case Begin => map[]
    case After(past, Arrive(key, now)) => Claimed(CacheOf(past), key, now)
    case After(past, Respond(key, code, bytes, now)) => Responded(CacheOf(past), key, code, bytes, now)
    case After(past, Gc(now)) => Collected(CacheOf(past), now)
  }

  /** The same run with a memory that is never collected. */
  function MemoryOf(ops: Ops): Cache {
    match ops
    case Begin => map[]
    case After(past, Arrive(key, now)) => Claimed(MemoryOf(past), key, now)
    case After(past, Respond(key, code, bytes, now)) => Responded(MemoryOf(past), key, code, bytes, now)
    case After(past, Gc(_)) => MemoryOf(past)
  }

  /** Collection only ever forgets transactions that are already past their lifetime. */
  ghost predicate ForgetsOnlyTheDead(cache: Cache, memory: Cache, now: nat) {
    forall k :: && (k in cache ==> k in memory && cache[k] == memory[k])
                && (k in memory && k !in cache ==> !Live(memory[k], now))
  }

  lemma {:induction false} CollectionIsSafe(ops: Ops)
    requires Ordered(ops)
    ensures ForgetsOnlyTheDead(CacheOf(ops), MemoryOf(ops), Clock(ops))
  {
    if ops.After? {
      CollectionIsSafe(ops.past);
      assert ForgetsOnlyTheDead(CacheOf(ops.past), MemoryOf(ops.past), ops.op.now);
    }
  }

  /** In every run a claim has the outcome it would have had if nothing were ever collected. */
  lemma CollectionIsInvisible(ops: Ops, key: Key, now: nat)
    requires Ordered(ops) && Clock(ops) <= now
    ensures ClaimOf(CacheOf(ops), key, now) == ClaimOf(MemoryOf(ops), key, now)
  {
    CollectionIsSafe(ops);
  }

  predicate IsFreshArrival(ops: Ops, key: Key) {
    ops.After? && ops.op.Arrive? && ops.op.key == key && ClaimOf(CacheOf(ops.past), key, ops.op.now).Fresh?
  }

  /** When the handler last ran for `key`. */
  function LastExecution(ops: Ops, key: Key): Option<nat> {
    if ops.Begin? then None
    else if IsFreshArrival(ops, key) then Some(ops.op.now)
    else LastExecution(ops.past, key)
  }

  lemma {:induction false} ExecutionIsRemembered(ops: Ops, key: Key)
    requires Ordered(ops) && LastExecution(ops, key).Some?
    ensures key in MemoryOf(ops) && LastExecution(ops, key).value <= StartedAt(MemoryOf(ops)[key])
    ensures LastExecution(ops, key).value <= Clock(ops)
  {
    if IsFreshArrival(ops, key) {
      CollectionIsInvisible(ops.past, key, ops.op.now);
    } else {
      ExecutionIsRemembered(ops.past, key);
    }
  }

  /** At most once: the handler of one transaction never runs twice within the transaction lifetime. */
  lemma AtMostOnce(ops: Ops, key: Key, now: nat)
    requires Ordered(ops) && Clock(ops) <= now
    requires ClaimOf(CacheOf(ops), key, now).Fresh? && LastExecution(ops, key).Some?
    ensures now - LastExecution(ops, key).value >= TXN_LIFETIME
  {
    CollectionIsInvisible(ops, key, now);
    ExecutionIsRemembered(ops, key);
  }

  /** The latest final response sent for `key` since its handler last ran. */
  function LatestFinal(ops: Ops, key: Key): Option<Bytes> {
    if ops.Begin? || IsFreshArrival(ops, key) then None
    else if ops.op.Respond? && ops.op.key == key && ops.op.code >= 200 then Some(ops.op.bytes)
    else LatestFinal(ops.past, key)
  }

  /** The latest provisional response sent for `key` since its handler last ran. */
  function LatestProvisional(ops: Ops, key: Key): Option<Bytes> {
    if ops.Begin? || IsFreshArrival(ops, key) then None
    else if ops.op.Respond? && ops.op.key == key && ops.op.code < 200 then Some(ops.op.bytes)
    else LatestProvisional(ops.past, key)
  }

  /** The entry holds the latest final response, or the latest provisional while there is none. */
  predicate Latest(ops: Ops, key: Key, t: ServerTxn) {
    match t
    case Completed(response, _) => LatestFinal(ops, key) == Some(response)
    case InProgress(_, provisional) => LatestFinal(ops, key).None? && LatestProvisional(ops, key) == provisional
  }

  lemma {:induction false} MemoryHoldsTheLatest(ops: Ops, key: Key)
    requires Ordered(ops) && key in MemoryOf(ops)
    ensures Latest(ops, key, MemoryOf(ops)[key])
  {
    if ops.After? {
      if IsFreshArrival(ops, key) {
        CollectionIsInvisible(ops.past, key, ops.op.now);
      } else {
        if ops.op.Arrive? && ops.op.key == key {
          CollectionIsInvisible(ops.past, key, ops.op.now);
        }
        if key in MemoryOf(ops.past) {
          MemoryHoldsTheLatest(ops.past, key);
        }
      }
    }
  }

  /**
   Every other copy is given the latest final response once there is one and the latest provisional
   until then; in particular a provisional never replaces a final.
   */
  lemma CopiesGetTheLatest(ops: Ops, key: Key, now: nat)
    requires Ordered(ops) && Clock(ops) <= now
    requires !ClaimOf(CacheOf(ops), key, now).Fresh?
    ensures ClaimOf(CacheOf(ops), key, now) ==
            if LatestFinal(ops, key).Some? then Replay(LatestFinal(ops, key).value) else InFlight(LatestProvisional(ops, key))
  {
    CollectionIsInvisible(ops, key, now);
    MemoryHoldsTheLatest(ops, key);
  }

  // -------------------------------------------------------------- identities

  function DialogKey(callId: string, cseq: nat): string {
    callId + "|" + Decimal(cseq)
  }

  function TxnKey(branch: string, cseq: nat, m: M.Method): string {
    DialogKey(branch, cseq) + "|" + M.MethodText(m)
  }

  /** The ACK of one INVITE is never taken for the ACK of another. */
  lemma DialogKeysDiffer(a: string, m: nat, b: string, n: nat)
    requires DialogKey(a, m) == DialogKey(b, n)
    ensures a == b && m == n
  {
    RSplitOnceAt(a, '|', Decimal(m));
    RSplitOnceAt(b, '|', Decimal(n));
    DecimalRoundTrip(m);
    DecimalRoundTrip(n);
  }

  /** Two requests share a transaction key only when branch, number and method all agree. */
  lemma TxnKeysDiffer(a: string, m: nat, x: M.Method, b: string, n: nat, y: M.Method)
    requires TxnKey(a, m, x) == TxnKey(b, n, y)
    ensures a == b && m == n && x == y
  {
    hide M.MethodText, DialogKey;
    M.MethodShape(x);
    M.MethodShape(y);
    RSplitOnceAt(DialogKey(a, m), '|', M.MethodText(x));
    RSplitOnceAt(DialogKey(b, n), '|', M.MethodText(y));
    M.MethodTextInjective(x, y);
    DialogKeysDiffer(a, m, b, n);
  }

  // ------------------------------------------------------------- the object

  class ServerCache {
    var cache: Cache

    constructor ()
      ensures cache == CacheOf(Begin)
    {
      cache := map[];
    }

    method ClaimTxn(key: Key, now: nat) returns (claim: Claim)
      modifies this
      ensures claim == ClaimOf(old(cache), key, now) && cache == Claimed(old(cache), key, now)
    {
      if key in cache && now - StartedAt(cache[key]) < TXN_LIFETIME {
        match cache[key]
        case Completed(response, _) => claim := Replay(response);
        case InProgress(_, provisional) => claim := InFlight(provisional);
      } else {
        cache := cache[key := InProgress(now, None)];
        claim := Fresh;
      }
    }

    method Remember(key: Key, code: nat, bytes: Bytes, now: nat)
      modifies this
      ensures cache == Responded(old(cache), key, code, bytes, now)
    {
      if code >= 200 {
        cache := cache[key := Completed(bytes, now)];
      } else if key in cache {
        match cache[key]
        case InProgress(since, _) => cache := cache[key := InProgress(since, Some(bytes))];
        case Completed(_, _) =>
      }
    }

    /** `retain` over the map: visit every entry once and drop the dead ones. */
    method Collect(now: nat)
      modifies this
      ensures cache == Collected(old(cache), now)
    {
      if |cache| <= 64 { return; }
      var todo := cache.Keys;
      while todo != {}
        invariant todo <= old(cache.Keys)
        invariant cache == map k | k in old(cache) && (k in todo || Live(old(cache)[k], now)) :: old(cache)[k]
        decreases |todo|
      {
        var k :| k in todo;
        if !(now - StartedAt(cache[k]) < TXN_LIFETIME) {
          cache := cache - {k};
        }
        todo := todo - {k};
      }
    }
  }
}
