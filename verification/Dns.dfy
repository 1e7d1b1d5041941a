/** The resolver's wire format (src/mms/dns.rs): the query it builds and the names it reads back. */
module Dns {
  import opened Util
  import opened Wsp

  const DOT: byte := 46

  /** `host` without its trailing dots. */
  function TrimDots(host: Bytes): Bytes {
    if host != [] && host[|host| - 1] == DOT then TrimDots(host[..|host| - 1]) else host
  }

  /** The pieces between dots, at least one. */
  function Labels(s: Bytes): (ls: seq<Bytes>)
    ensures ls != []
  {
    if s == [] then [[]]
    else
      var rest := Labels(s[1..]);
      if s[0] == DOT then [[]] + rest else [[s[0]] + rest[0]] + rest[1..]
  }

  predicate LabelOk(l: Bytes) {
    1 <= |l| <= 63
  }

  function U16(n: nat): Bytes
    requires n < 0x10000
  {
    [n / 256, n % 256]
  }

  function LabelOf(l: Bytes): (b: Bytes)
    requires LabelOk(l)
    ensures |b| == |l| + 1
  {
    var len: Bytes := [|l|];
    len + l
  }

  function LabelBytes(ls: seq<Bytes>): Bytes
    requires forall i :: 0 <= i < |ls| ==> LabelOk(ls[i])
  {
    if ls == [] then [] else LabelOf(ls[0]) + LabelBytes(ls[1..])
  }

  /** Fixed header: identifier, flags, one question, no records. */
  function QueryHeader(id: nat, flags: nat): (h: Bytes)
    requires id < 0x10000 && flags < 0x10000
    ensures |h| == 12
  {
    U16(id) + U16(flags) + [0, 1, 0, 0, 0, 0, 0, 0]
  }

  function Question(qtype: nat): (q: Bytes)
    requires qtype < 0x10000
    ensures |q| == 4
  {
    U16(qtype) + [0, 1]
  }

  predicate HostOk(host: Bytes) {
    var ls := Labels(TrimDots(host));
    forall i :: 0 <= i < |ls| ==> LabelOk(ls[i])
  }

  /** The query, or its echo with other flags. */
  function QueryWith(id: nat, flags: nat, host: Bytes, qtype: nat): Bytes
    requires id < 0x10000 && flags < 0x10000 && qtype < 0x10000 && HostOk(host)
  {
    QueryHeader(id, flags) + (LabelBytes(Labels(TrimDots(host))) + [0] + Question(qtype))
  }

  const RECURSION_DESIRED: nat := 0x0100

  function BuildQuery(id: nat, host: Bytes, qtype: nat): Option<Bytes>
    requires id < 0x10000 && qtype < 0x10000
  {
    if HostOk(host) then Some(QueryWith(id, RECURSION_DESIRED, host, qtype)) else None
  }

  // ------------------------------------------------------------ reading names

  predicate IsPointer(b: byte) {
    b >= 0xC0
  }

  /** Where a compression pointer points. */
  function Target(hi: byte, lo: byte): nat
    requires IsPointer(hi)
  {
    (hi as int - 0xC0) * 256 + lo as int
  }

  /** At most `k` more labels. */
  function SkipFrom(msg: Bytes, pos: nat, k: nat): Option<nat>
    decreases if pos < |msg| then |msg| - pos else 0
  {
    if k == 0 || pos >= |msg| then None
    else if msg[pos] == 0 then Some(pos + 1)
    else if IsPointer(msg[pos]) then Some(pos + 2)
    else SkipFrom(msg, pos + 1 + msg[pos], k - 1)
  }

  const MAX_LABELS: nat := 128

  function SkipName(msg: Bytes, pos: nat): Option<nat> {
    SkipFrom(msg, pos, MAX_LABELS)
  }

  const MAX_HOPS: nat := 16

  function WithLabel(out: Bytes, l: Bytes): Bytes {
    if out == [] then l else out + [DOT] + l
  }

  function Left(msg: Bytes, pos: nat): nat {
    if pos < |msg| then |msg| - pos else 0
  }

  /** Terminates on any bytes: a pointer uses up a hop, a label moves forward. */
  function ReadFrom(msg: Bytes, pos: nat, hops: nat, out: Bytes): Option<Bytes>
    requires hops <= MAX_HOPS
    decreases MAX_HOPS - hops, Left(msg, pos)
  {
    if pos >= |msg| then None
    else if msg[pos] == 0 then Some(out)
    else if IsPointer(msg[pos]) then
      if pos + 1 >= |msg| || hops + 1 > MAX_HOPS then None
      else ReadFrom(msg, Target(msg[pos], msg[pos + 1]), hops + 1, out)
    else
      var end := pos + 1 + msg[pos];
      if end > |msg| then None else ReadFrom(msg, end, hops, WithLabel(out, msg[pos + 1..end]))
  }

  function ReadName(msg: Bytes, pos: nat): Option<Bytes> {
    ReadFrom(msg, pos, 0, [])
  }

  // ----------------------------------------------------------- classification

  datatype Reply = Ours | Rejected(rcode: nat) | NotOurs

  function At16(msg: Bytes, p: nat): nat
    requires p + 2 <= |msg|
  {
    msg[p] as int * 256 + msg[p + 1] as int
  }

  /** The question section repeats the question. */
  predicate Echoed(msg: Bytes, host: Bytes, qtype: nat)
    requires |msg| >= 12
  {
    && At16(msg, 4) == 1
    && ReadName(msg, 12).Some? && SkipName(msg, 12).Some?
    && var after := SkipName(msg, 12).value;
    && after + 4 <= |msg| && At16(msg, after) == qtype && At16(msg, after + 2) == 1
    && EqIgnoreCase(ReadName(msg, 12).value, TrimDots(host))
  }

  function Classify(msg: Bytes, id: nat, host: Bytes, qtype: nat): Reply {
    if |msg| < 12 || At16(msg, 0) != id then NotOurs
    else
      var flags := At16(msg, 2);
      if flags < 0x8000 then NotOurs
      else if Echoed(msg, host, qtype) then Ours
      else if flags % 16 == 0 then NotOurs
      else Rejected(flags % 16)
  }

  // -------------------------------------------------------------- round trips

  function JoinDots(ls: seq<Bytes>): Bytes
    requires ls != []
  {
    if |ls| == 1 then ls[0] else ls[0] + [DOT] + JoinDots(ls[1..])
  }

  lemma {:induction false} JoinLabels(s: Bytes)
    ensures JoinDots(Labels(s)) == s
  {
    if s != [] {
      JoinLabels(s[1..]);
      var rest := Labels(s[1..]);
      var ls := Labels(s);
      if s[0] == DOT {
        assert ls[1..] == rest;
      } else {
        assert ls[1..] == rest[1..];
      }
      assert s == [s[0]] + s[1..];
    }
  }

  function Accumulated(out: Bytes, ls: seq<Bytes>): Bytes
    decreases |ls|
  {
    if ls == [] then out else Accumulated(WithLabel(out, ls[0]), ls[1..])
  }

  lemma {:induction false} AccumulatedJoin(out: Bytes, ls: seq<Bytes>)
    requires ls != [] && out != [] && forall i :: 0 <= i < |ls| ==> LabelOk(ls[i])
    ensures Accumulated(out, ls) == out + [DOT] + JoinDots(ls)
    decreases |ls|
  {
    var next := WithLabel(out, ls[0]);
    if |ls| > 1 {
      AccumulatedJoin(next, ls[1..]);
      assert next + [DOT] + JoinDots(ls[1..]) == out + [DOT] + (ls[0] + [DOT] + JoinDots(ls[1..]));
    } else {
      assert ls[1..] == [];
    }
  }

  lemma AccumulatedIsJoin(ls: seq<Bytes>)
    requires ls != [] && forall i :: 0 <= i < |ls| ==> LabelOk(ls[i])
    ensures Accumulated([], ls) == JoinDots(ls)
  {
    if |ls| > 1 {
      AccumulatedJoin(ls[0], ls[1..]);
    } else {
      assert ls[1..] == [];
    }
  }

  /** One label further: both walks step over it. */
  lemma LabelSteps(msg: Bytes, pos: nat, l: Bytes, hops: nat, out: Bytes, k: nat)
    requires LabelOk(l) && At(msg, pos, LabelOf(l)) && hops <= MAX_HOPS
    ensures ReadFrom(msg, pos, hops, out) == ReadFrom(msg, pos + 1 + |l|, hops, WithLabel(out, l))
    ensures k > 0 ==> SkipFrom(msg, pos, k) == SkipFrom(msg, pos + 1 + |l|, k - 1)
  {
    hide At, WithLabel;
    var len: Bytes := [|l|];
    AtSplit(msg, pos, len, l);
    AtFirst(msg, pos, LabelOf(l));
    AtMeans(msg, pos + 1, l);
  }

  lemma {:induction false} LabelsWalked(msg: Bytes, pos: nat, ls: seq<Bytes>, hops: nat, out: Bytes, k: nat)
    requires (forall i :: 0 <= i < |ls| ==> LabelOk(ls[i])) && At(msg, pos, LabelBytes(ls) + [0]) && hops <= MAX_HOPS
    ensures ReadFrom(msg, pos, hops, out) == Some(Accumulated(out, ls))
    ensures SkipFrom(msg, pos, k) == if |ls| < k then Some(pos + |LabelBytes(ls)| + 1) else None
    decreases |ls|
  {
    hide At, WithLabel;
    if ls == [] {
      var end: Bytes := [0];
      assert LabelBytes(ls) + [0] == end;
      AtMeans(msg, pos, end);
      AtFirst(msg, pos, end);
    } else {
      hide ReadFrom, SkipFrom, LabelOk, LabelOf;
      var l, rest := ls[0], LabelBytes(ls[1..]) + [0];
      assert LabelBytes(ls) + [0] == LabelOf(l) + rest;
      AtSplit(msg, pos, LabelOf(l), rest);
      LabelSteps(msg, pos, l, hops, out, k);
      LabelsWalked(msg, pos + 1 + |l|, ls[1..], hops, WithLabel(out, l), if k > 0 then k - 1 else 0);
      if k == 0 {
        SkipNone(msg, pos);
      }
    }
  }

  lemma SkipNone(msg: Bytes, pos: nat)
    ensures SkipFrom(msg, pos, 0) == None
  {
  }

  /** The name is read back without its trailing dots, and skipping it lands on the query type, up to 127 labels. */
  lemma NameReadBack(id: nat, flags: nat, host: Bytes, qtype: nat)
    requires id < 0x10000 && flags < 0x10000 && qtype < 0x10000 && HostOk(host)
    ensures var msg := QueryWith(id, flags, host, qtype); var ls := Labels(TrimDots(host));
            && ReadName(msg, 12) == Some(TrimDots(host))
            && SkipName(msg, 12) == (if |ls| <= 127 then Some(|msg| - 4) else None)
            && At(msg, |msg| - 4, Question(qtype))
  {
    hide At, ReadFrom, SkipFrom, Labels, TrimDots, LabelBytes, QueryHeader, Question, Accumulated, JoinDots;
    var ls := Labels(TrimDots(host));
    var msg, h, n := QueryWith(id, flags, host, qtype), QueryHeader(id, flags), LabelBytes(ls) + [0];
    AtWhole(msg);
    AtSplit(msg, 0, h, n + Question(qtype));
    AtSplit(msg, 12, n, Question(qtype));
    LabelsWalked(msg, 12, ls, 0, [], MAX_LABELS);
    AccumulatedIsJoin(ls);
    JoinLabels(TrimDots(host));
  }

  /** A pointer to a name written earlier reads as that name, and skipping it skips two bytes. */
  lemma PointerReads(msg: Bytes, q: nat, p: nat, ls: seq<Bytes>)
    requires ls != [] && (forall i :: 0 <= i < |ls| ==> LabelOk(ls[i])) && At(msg, p, LabelBytes(ls) + [0])
    requires p < 0x4000 && q + 2 <= |msg| && msg[q] as int == 0xC0 + p / 256 && msg[q + 1] as int == p % 256
    ensures ReadName(msg, q) == Some(JoinDots(ls)) && SkipName(msg, q) == Some(q + 2)
  {
    hide At, LabelBytes, WithLabel, Accumulated, JoinDots;
    assert Target(msg[q], msg[q + 1]) == p;
    LabelsWalked(msg, p, ls, 1, [], MAX_LABELS);
    AccumulatedIsJoin(ls);
  }

  /** The fields of the fixed header, wherever the rest goes. */
  lemma HeaderFields(id: nat, flags: nat, rest: Bytes)
    requires id < 0x10000 && flags < 0x10000
    ensures var msg := QueryHeader(id, flags) + rest; At16(msg, 0) == id && At16(msg, 2) == flags && At16(msg, 4) == 1
  {
  }

  lemma QuestionFields(msg: Bytes, p: nat, qtype: nat)
    requires qtype < 0x10000 && At(msg, p, Question(qtype))
    ensures p + 4 <= |msg| && At16(msg, p) == qtype && At16(msg, p + 2) == 1
  {
    var s := msg[p..p + 4];
    assert s[0] == msg[p] && s[1] == msg[p + 1] && s[2] == msg[p + 2] && s[3] == msg[p + 3];
  }

  /**
   A response that echoes some question is taken as ours exactly when identifier, type and name, ignoring
   case and trailing dots, are those we asked, and the name has at most 127 labels.
   */
  lemma OnlyOurQuestionIsOurs(id: nat, flags: nat, host: Bytes, qtype: nat, wantId: nat, asked: Bytes, wantType: nat)
    requires id < 0x10000 && 0x8000 <= flags < 0x10000 && qtype < 0x10000 && HostOk(host)
    ensures Classify(QueryWith(id, flags, host, qtype), wantId, asked, wantType) == Ours <==>
            && id == wantId && qtype == wantType && EqIgnoreCase(TrimDots(host), TrimDots(asked))
            && |Labels(TrimDots(host))| <= 127
  {
    hide At, ReadName, SkipName, Labels, TrimDots, LabelBytes, QueryHeader, Question, EqIgnoreCase;
    var msg := QueryWith(id, flags, host, qtype);
    NameReadBack(id, flags, host, qtype);
    HeaderFields(id, flags, LabelBytes(Labels(TrimDots(host))) + [0] + Question(qtype));
    QuestionFields(msg, |msg| - 4, qtype);
  }

  /** So the echo of our own query is ours exactly when the host has at most 127 labels. */
  lemma EchoIsOurs(id: nat, flags: nat, host: Bytes, qtype: nat)
    requires id < 0x10000 && 0x8000 <= flags < 0x10000 && qtype < 0x10000 && HostOk(host)
    ensures Classify(QueryWith(id, flags, host, qtype), id, host, qtype) == Ours <==> |Labels(TrimDots(host))| <= 127
  {
    hide Classify, QueryWith, Labels, TrimDots;
    OnlyOurQuestionIsOurs(id, flags, host, qtype, id, host, qtype);
  }

  /** A host of `n` labels of one letter. */
  function Chain(n: nat): Bytes
    requires n > 0
  {
    if n == 1 then [97] else [97, DOT] + Chain(n - 1)
  }

  lemma {:induction false} ChainLabels(n: nat)
    requires n > 0
    ensures |Labels(Chain(n))| == n && forall i :: 0 <= i < n ==> Labels(Chain(n))[i] == [97]
    ensures Chain(n)[|Chain(n)| - 1] == 97
  {
    if n == 1 {
      assert Chain(n)[1..] == [];
      assert Labels([]) == [[]];
    } else {
      ChainLabels(n - 1);
      var s := Chain(n);
      assert s[1..] == [DOT] + Chain(n - 1) && s[1..][1..] == Chain(n - 1);
      var rest := Labels(s[1..]);
      assert rest == [[]] + Labels(Chain(n - 1));
      assert Labels(s) == [[97] + rest[0]] + rest[1..];
    }
  }

  /** Of these hosts, all of which can be asked for, exactly those with at most 127 labels are recognised in an answer. */
  lemma LongNamesAreNotOurs(n: nat, id: nat, flags: nat, qtype: nat)
    requires n > 0 && id < 0x10000 && 0x8000 <= flags < 0x10000 && qtype < 0x10000
    ensures HostOk(Chain(n)) && BuildQuery(id, Chain(n), qtype).Some?
    ensures Classify(QueryWith(id, flags, Chain(n), qtype), id, Chain(n), qtype) == Ours <==> n <= 127
  {
    hide Labels, Chain, Classify, QueryWith;
    ChainLabels(n);
    assert TrimDots(Chain(n)) == Chain(n);
    EchoIsOurs(id, flags, Chain(n), qtype);
  }

  /** A host of 128 labels: asked for, and its answer taken for somebody else's. */
  lemma HostOf128Labels()
    ensures HostOk(Chain(128)) && Classify(QueryWith(1, 0x8180, Chain(128), TYPE_A), 1, Chain(128), TYPE_A) == NotOurs
  {
    hide Chain, QueryWith, Echoed;
    LongNamesAreNotOurs(128, 1, 0x8180, TYPE_A);
    HeaderOf(1, 0x8180, Chain(128), TYPE_A);
  }

  lemma HeaderOf(id: nat, flags: nat, host: Bytes, qtype: nat)
    requires id < 0x10000 && flags < 0x10000 && qtype < 0x10000 && HostOk(host)
    ensures var msg := QueryWith(id, flags, host, qtype); |msg| >= 12 && At16(msg, 0) == id && At16(msg, 2) == flags
  {
    hide QueryHeader, LabelBytes, Question, Labels;
    HeaderFields(id, flags, LabelBytes(Labels(TrimDots(host))) + [0] + Question(qtype));
  }

  /** A response to our query that does not carry exactly one question ends the wait with its code, unless that is zero. */
  lemma RefusalEndsTheWait(msg: Bytes, host: Bytes, qtype: nat)
    requires |msg| >= 12 && At16(msg, 2) >= 0x8000 && At16(msg, 4) != 1
    ensures var rcode := At16(msg, 2) % 16;
            Classify(msg, At16(msg, 0), host, qtype) == if rcode == 0 then NotOurs else Rejected(rcode)
  {
  }

  /** A query sent back as it was, without the response bit, is never taken for an answer. */
  lemma QueryIsNotAnAnswer(id: nat, host: Bytes, qtype: nat)
    requires id < 0x10000 && qtype < 0x10000 && HostOk(host)
    ensures Classify(QueryWith(id, RECURSION_DESIRED, host, qtype), id, host, qtype) == NotOurs
  {
    hide Labels, TrimDots, LabelBytes, QueryHeader, Question, Echoed;
    HeaderFields(id, RECURSION_DESIRED, LabelBytes(Labels(TrimDots(host))) + [0] + Question(qtype));
  }

  /** `n` times `m`, added up. */
  function Times(n: nat, m: nat): nat {
    if n == 0 then 0 else Times(n - 1, m) + m
  }

  lemma {:induction false} TimesIsProduct(n: nat, m: nat)
    ensures Times(n, m) == n * m
  {
    if n > 0 {
      TimesIsProduct(n - 1, m);
    }
  }

  /** On any bytes a name is bounded: each stretch between pointers contributes at most what is left of the datagram. */
  lemma {:induction false} NameIsBounded(msg: Bytes, pos: nat, hops: nat, out: Bytes)
    requires hops <= MAX_HOPS
    ensures var r := ReadFrom(msg, pos, hops, out);
            r.Some? ==> |r.value| <= |out| + Times(MAX_HOPS - hops, |msg|) + Left(msg, pos)
    decreases MAX_HOPS - hops, Left(msg, pos)
  {
    if pos < |msg| && msg[pos] != 0 {
      if IsPointer(msg[pos]) {
        if pos + 1 < |msg| && hops + 1 <= MAX_HOPS {
          hide Target;
          NameIsBounded(msg, Target(msg[pos], msg[pos + 1]), hops + 1, out);
        }
      } else {
        var end := pos + 1 + msg[pos];
        if end <= |msg| {
          hide Times;
          NameIsBounded(msg, end, hops, WithLabel(out, msg[pos + 1..end]));
        }
      }
    }
  }

  /** Reading a name ends on any bytes, and the name is at most 17 datagrams long. */
  lemma NameLength(msg: Bytes, pos: nat)
    ensures ReadName(msg, pos).Some? ==> |ReadName(msg, pos).value| <= 17 * |msg|
  {
    hide ReadFrom, Times;
    NameIsBounded(msg, pos, 0, []);
    TimesIsProduct(MAX_HOPS, |msg|);
  }

  // ------------------------------------------------------------------ answers

  const TYPE_A: nat := 1

  const TYPE_CNAME: nat := 5

  const TYPE_AAAA: nat := 28

  /** Addresses as their bytes, in the order of the records. */
  datatype Answer = Answer(addrs: seq<Bytes>, cname: Option<Bytes>)

  function SkipQuestions(msg: Bytes, pos: nat, n: nat): Option<nat>
    decreases n
  {
    if n == 0 then Some(pos)
    else
      match SkipName(msg, pos)
      case None => None
      case Some(p) => SkipQuestions(msg, p + 4, n - 1)
  }

  predicate IsAddress(rtype: nat, len: nat, qtype: nat) {
    || (rtype == TYPE_A && len == 4 && qtype == TYPE_A)
    || (rtype == TYPE_AAAA && len == 16 && qtype == TYPE_AAAA)
  }

  /** What one record adds; only the first CNAME that can be read counts. */
  function WithRecord(acc: Answer, msg: Bytes, start: nat, end: nat, rtype: nat, qtype: nat): Answer
    requires start <= end <= |msg|
  {
    if IsAddress(rtype, end - start, qtype) then acc.(addrs := acc.addrs + [msg[start..end]])
    else if rtype == TYPE_CNAME && acc.cname.None? then acc.(cname := ReadName(msg, start))
    else acc
  }

  function Records(msg: Bytes, pos: nat, n: nat, qtype: nat, acc: Answer): Option<Answer>
    decreases n
  {
    if n == 0 then Some(acc)
    else
      match SkipName(msg, pos)
      case None => None
      case Some(p) =>
        if p + 10 > |msg| then None
        else
          var start, end := p + 10, p + 10 + At16(msg, p + 8);
          if end > |msg| then None
          else Records(msg, end, n - 1, qtype, WithRecord(acc, msg, start, end, At16(msg, p), qtype))
  }

  function ParseAnswer(msg: Bytes, id: nat, qtype: nat): Option<Answer> {
    if |msg| < 12 || At16(msg, 0) != id || At16(msg, 2) < 0x8000 || At16(msg, 2) % 16 != 0 then None
    else
      match SkipQuestions(msg, 12, At16(msg, 4))
      case None => None
      case Some(pos) => Records(msg, pos, At16(msg, 6), qtype, Answer([], None))
  }

  /** An owner name: labels, then the end or a pointer to the rest. */
  datatype Owner = Owner(labels: seq<Bytes>, pointer: Option<nat>)

  datatype Record = Record(owner: Owner, rtype: nat, ttl: Bytes, data: Bytes)

  predicate OwnerOk(o: Owner) {
    && |o.labels| <= 127 && (forall i :: 0 <= i < |o.labels| ==> LabelOk(o.labels[i]))
    && (o.pointer.Some? ==> o.pointer.value < 0x4000)
  }

  predicate RecordOk(r: Record) {
    OwnerOk(r.owner) && r.rtype < 0x10000 && |r.ttl| == 4 && |r.data| < 0x10000
  }

  predicate AllOk(rs: seq<Record>) {
    rs == [] || (RecordOk(rs[0]) && AllOk(rs[1..]))
  }

  function OwnerEnd(o: Owner): (b: Bytes)
    requires OwnerOk(o)
    ensures b != []
  {
    if o.pointer.Some? then [0xC0 + o.pointer.value / 256, o.pointer.value % 256] else [0]
  }

  function OwnerBytes(o: Owner): Bytes
    requires OwnerOk(o)
  {
    LabelBytes(o.labels) + OwnerEnd(o)
  }

  /** Type, class, time to live, length. */
  function RecordFields(r: Record): (h: Bytes)
    requires RecordOk(r)
    ensures |h| == 10
  {
    U16(r.rtype) + [0, 1] + r.ttl + U16(|r.data|)
  }

  function RecordHead(r: Record): Bytes
    requires RecordOk(r)
  {
    OwnerBytes(r.owner) + RecordFields(r)
  }

  function RecordsBytes(rs: seq<Record>): Bytes
    requires AllOk(rs)
  {
    if rs == [] then [] else RecordHead(rs[0]) + rs[0].data + RecordsBytes(rs[1..])
  }

  function Found(r: Record, qtype: nat): seq<Bytes> {
    if IsAddress(r.rtype, |r.data|, qtype) then [r.data] else []
  }

  /** The addresses a reader should find. */
  function Addresses(rs: seq<Record>, qtype: nat): seq<Bytes> {
    if rs == [] then [] else Found(rs[0], qtype) + Addresses(rs[1..], qtype)
  }

  /** The alias a record at `start` gives, if it is one and can be read. */
  function Alias(msg: Bytes, start: nat, r: Record): Option<Bytes> {
    if r.rtype == TYPE_CNAME then ReadName(msg, start) else None
  }

  /** The first alias of the records that start at `p`. */
  function FirstAlias(msg: Bytes, p: nat, rs: seq<Record>): Option<Bytes>
    requires AllOk(rs)
    decreases |rs|
  {
    if rs == [] then None
    else
      var start := p + |RecordHead(rs[0])|;
      var a := Alias(msg, start, rs[0]);
      if a.Some? then a else FirstAlias(msg, start + |rs[0].data|, rs[1..])
  }

  lemma {:induction false} LabelsSkipped(msg: Bytes, pos: nat, ls: seq<Bytes>, k: nat)
    requires (forall i :: 0 <= i < |ls| ==> LabelOk(ls[i])) && At(msg, pos, LabelBytes(ls)) && |ls| <= k
    ensures SkipFrom(msg, pos, k) == SkipFrom(msg, pos + |LabelBytes(ls)|, k - |ls|)
    decreases |ls|
  {
    hide At, SkipFrom, LabelOf;
    if ls != [] {
      var l := ls[0];
      AtSplit(msg, pos, LabelOf(l), LabelBytes(ls[1..]));
      LabelSteps(msg, pos, l, 0, [], k);
      LabelsSkipped(msg, pos + 1 + |l|, ls[1..], k - 1);
    }
  }

  lemma OwnerSkipped(msg: Bytes, p: nat, o: Owner)
    requires OwnerOk(o) && At(msg, p, OwnerBytes(o))
    ensures SkipName(msg, p) == Some(p + |OwnerBytes(o)|)
  {
    hide At, LabelBytes;
    AtSplit(msg, p, LabelBytes(o.labels), OwnerEnd(o));
    LabelsSkipped(msg, p, o.labels, MAX_LABELS);
    AtFirst(msg, p + |LabelBytes(o.labels)|, OwnerEnd(o));
    AtMeans(msg, p + |LabelBytes(o.labels)|, OwnerEnd(o));
  }

  lemma RecordFieldsRead(msg: Bytes, p: nat, r: Record)
    requires RecordOk(r) && At(msg, p, RecordFields(r))
    ensures p + 10 <= |msg| && At16(msg, p) == r.rtype && At16(msg, p + 8) == |r.data|
  {
    hide OwnerOk;
    var s, h := msg[p..p + 10], RecordFields(r);
    assert s[0] == msg[p] && s[1] == msg[p + 1] && s[8] == msg[p + 8] && s[9] == msg[p + 9];
    assert h[0] == U16(r.rtype)[0] && h[1] == U16(r.rtype)[1] && h[8] == U16(|r.data|)[0] && h[9] == U16(|r.data|)[1];
  }

  lemma HeadFields(msg: Bytes, p: nat, r: Record)
    requires RecordOk(r) && At(msg, p, RecordHead(r))
    ensures var q := p + |OwnerBytes(r.owner)|;
            && SkipName(msg, p) == Some(q) && q + 10 <= |msg| && At16(msg, q) == r.rtype && At16(msg, q + 8) == |r.data|
  {
    hide At, SkipName, OwnerBytes, RecordFields, At16, OwnerOk;
    AtSplit(msg, p, OwnerBytes(r.owner), RecordFields(r));
    OwnerSkipped(msg, p, r.owner);
    RecordFieldsRead(msg, p + |OwnerBytes(r.owner)|, r);
  }

  /** One record is stepped over; it adds its data if it is an address of the asked type, or its alias if there was none. */
  lemma RecordStep(msg: Bytes, p: nat, r: Record, n: nat, qtype: nat, acc: Answer)
    requires RecordOk(r) && At(msg, p, RecordHead(r) + r.data) && n > 0
    ensures var start := p + |RecordHead(r)|; var end := start + |r.data|;
            && end <= |msg|
            && var next := WithRecord(acc, msg, start, end, r.rtype, qtype);
            && Records(msg, p, n, qtype, acc) == Records(msg, end, n - 1, qtype, next)
            && next.addrs == acc.addrs + Found(r, qtype)
            && next.cname == if acc.cname.Some? then acc.cname else Alias(msg, start, r)
  {
    hide At, SkipName, ReadName, RecordOk, At16, OwnerBytes, RecordFields;
    AtSplit(msg, p, RecordHead(r), r.data);
    HeadFields(msg, p, r);
    AtMeans(msg, p + |RecordHead(r)|, r.data);
  }

  lemma RecordsCons(msg: Bytes, p: nat, rs: seq<Record>, qtype: nat)
    requires AllOk(rs) && rs != []
    ensures RecordOk(rs[0]) && AllOk(rs[1..])
    ensures var start := p + |RecordHead(rs[0])|; var a := Alias(msg, start, rs[0]);
            && RecordsBytes(rs) == (RecordHead(rs[0]) + rs[0].data) + RecordsBytes(rs[1..])
            && Addresses(rs, qtype) == Found(rs[0], qtype) + Addresses(rs[1..], qtype)
            && FirstAlias(msg, p, rs) == if a.Some? then a else FirstAlias(msg, start + |rs[0].data|, rs[1..])
  {
    hide RecordOk, RecordHead, Found, Alias;
  }

  /** What reading the records should give. */
  ghost predicate Gathers(msg: Bytes, p: nat, rs: seq<Record>, qtype: nat, acc: Answer, a: Option<Answer>)
    requires AllOk(rs)
  {
    && a.Some? && a.value.addrs == acc.addrs + Addresses(rs, qtype)
    && a.value.cname == if acc.cname.Some? then acc.cname else FirstAlias(msg, p, rs)
  }

  lemma GathersOneMore(msg: Bytes, p: nat, rs: seq<Record>, qtype: nat, acc: Answer, next: Answer, a: Option<Answer>)
    requires AllOk(rs) && rs != [] && AllOk(rs[1..]) && RecordOk(rs[0])
    requires next.addrs == acc.addrs + Found(rs[0], qtype)
    requires next.cname == if acc.cname.Some? then acc.cname else Alias(msg, p + |RecordHead(rs[0])|, rs[0])
    requires Gathers(msg, p + |RecordHead(rs[0])| + |rs[0].data|, rs[1..], qtype, next, a)
    ensures Gathers(msg, p, rs, qtype, acc, a)
  {
    hide AllOk, RecordOk, RecordHead, Found, Alias, Addresses, FirstAlias, RecordsBytes;
    RecordsCons(msg, p, rs, qtype);
    Regroup(acc.addrs, Found(rs[0], qtype), Addresses(rs[1..], qtype));
  }

  lemma {:induction false} RecordsRead(msg: Bytes, p: nat, rs: seq<Record>, qtype: nat, acc: Answer)
    requires AllOk(rs) && At(msg, p, RecordsBytes(rs))
    ensures Gathers(msg, p, rs, qtype, acc, Records(msg, p, |rs|, qtype, acc))
    decreases |rs|
  {
    hide At, RecordHead, RecordOk, WithRecord, Records, Found, Alias, AllOk, RecordsBytes, Addresses, FirstAlias, Gathers;
    if rs == [] {
      NoRecords(msg, p, qtype, acc);
    } else {
      RecordsCons(msg, p, rs, qtype);
      var r, rest := rs[0], rs[1..];
      var start := p + |RecordHead(r)|;
      var end := start + |r.data|;
      AtSplit(msg, p, RecordHead(r) + r.data, RecordsBytes(rest));
      RecordStep(msg, p, r, |rs|, qtype, acc);
      var next := WithRecord(acc, msg, start, end, r.rtype, qtype);
      RecordsRead(msg, end, rest, qtype, next);
      GathersOneMore(msg, p, rs, qtype, acc, next, Records(msg, end, |rest|, qtype, next));
    }
  }

  lemma Regroup(a: seq<Bytes>, b: seq<Bytes>, c: seq<Bytes>)
    ensures a + b + c == a + (b + c)
  {
  }

  lemma NoRecords(msg: Bytes, p: nat, qtype: nat, acc: Answer)
    ensures AllOk([]) && Gathers(msg, p, [], qtype, acc, Records(msg, p, 0, qtype, acc))
  {
    assert acc.addrs + [] == acc.addrs;
  }

  lemma OneQuestion(msg: Bytes, pos: nat, after: nat)
    requires SkipName(msg, pos) == Some(after)
    ensures SkipQuestions(msg, pos, 1) == Some(after + 4)
  {
    hide SkipName;
    assert SkipQuestions(msg, after + 4, 0) == Some(after + 4);
  }

  /** A response to the question with these records. */
  function ResponseWith(id: nat, flags: nat, host: Bytes, qtype: nat, rs: seq<Record>): Bytes
    requires id < 0x10000 && flags < 0x10000 && qtype < 0x10000 && HostOk(host) && |rs| < 0x10000
    requires AllOk(rs)
  {
    U16(id) + U16(flags) + [0, 1] + U16(|rs|) + [0, 0, 0, 0]
    + (LabelBytes(Labels(TrimDots(host))) + [0] + Question(qtype) + RecordsBytes(rs))
  }

  lemma ResponseFields(id: nat, flags: nat, n: nat, rest: Bytes)
    requires id < 0x10000 && flags < 0x10000 && n < 0x10000
    ensures var msg := U16(id) + U16(flags) + [0, 1] + U16(n) + [0, 0, 0, 0] + rest;
            && |msg| == 12 + |rest| && At(msg, 12, rest)
            && At16(msg, 0) == id && At16(msg, 2) == flags && At16(msg, 4) == 1 && At16(msg, 6) == n
  {
    var h := U16(id) + U16(flags) + [0, 1] + U16(n) + [0, 0, 0, 0];
    assert (h + rest)[12..] == rest;
  }

  /** A successful response gives its addresses of the asked type, all of them and in order, and its first readable alias. */
  lemma AnswerReadBack(id: nat, flags: nat, host: Bytes, qtype: nat, rs: seq<Record>)
    requires id < 0x10000 && 0x8000 <= flags < 0x10000 && flags % 16 == 0 && qtype < 0x10000 && HostOk(host) && |rs| < 0x10000
    requires |Labels(TrimDots(host))| <= 127 && AllOk(rs)
    ensures var msg := ResponseWith(id, flags, host, qtype, rs);
            ParseAnswer(msg, id, qtype) == Some(Answer(Addresses(rs, qtype), FirstAlias(msg, |msg| - |RecordsBytes(rs)|, rs)))
  {
    hide At, SkipFrom, ReadFrom, SkipQuestions, Labels, TrimDots, LabelBytes, Question, RecordsBytes, RecordOk, U16, At16, Records, Addresses, FirstAlias, Accumulated;
    var ls := Labels(TrimDots(host));
    var n := LabelBytes(ls) + [0];
    var msg := ResponseWith(id, flags, host, qtype, rs);
    ResponseFields(id, flags, |rs|, n + Question(qtype) + RecordsBytes(rs));
    AtSplit(msg, 12, n + Question(qtype), RecordsBytes(rs));
    AtSplit(msg, 12, n, Question(qtype));
    LabelsWalked(msg, 12, ls, 0, [], MAX_LABELS);
    OneQuestion(msg, 12, 12 + |n|);
    RecordsRead(msg, 12 + |n| + 4, rs, qtype, Answer([], None));
    assert [] + Addresses(rs, qtype) == Addresses(rs, qtype);
  }

  /** An alias written out without compression is read as that name, if no alias comes before it. */
  lemma {:induction false} AliasIsRead(msg: Bytes, p: nat, rs: seq<Record>, i: nat, ls: seq<Bytes>)
    requires AllOk(rs) && At(msg, p, RecordsBytes(rs)) && i < |rs|
    requires rs[i].rtype == TYPE_CNAME && forall j :: 0 <= j < i ==> rs[j].rtype != TYPE_CNAME
    requires ls != [] && (forall j :: 0 <= j < |ls| ==> LabelOk(ls[j])) && rs[i].data == LabelBytes(ls) + [0]
    ensures FirstAlias(msg, p, rs) == Some(JoinDots(ls))
    decreases i
  {
    hide At, RecordHead, RecordOk, ReadName, LabelBytes, JoinDots, LabelOk;
    var r := rs[0];
    var start := p + |RecordHead(r)|;
    AtSplit(msg, p, RecordHead(r) + r.data, RecordsBytes(rs[1..]));
    AtSplit(msg, p, RecordHead(r), r.data);
    if i == 0 {
      PlainNameRead(msg, start, ls);
    } else {
      AliasIsRead(msg, start + |r.data|, rs[1..], i - 1, ls);
    }
  }

  lemma PlainNameRead(msg: Bytes, p: nat, ls: seq<Bytes>)
    requires ls != [] && (forall i :: 0 <= i < |ls| ==> LabelOk(ls[i])) && At(msg, p, LabelBytes(ls) + [0])
    ensures ReadName(msg, p) == Some(JoinDots(ls))
  {
    hide At, LabelBytes, ReadFrom, Accumulated, JoinDots;
    LabelsWalked(msg, p, ls, 0, [], MAX_LABELS);
    AccumulatedIsJoin(ls);
  }

  // ---------------------------------------------------------------- the loops

  method WriteQuery(id: nat, host: Bytes, qtype: nat) returns (r: Option<Bytes>)
    requires id < 0x10000 && qtype < 0x10000
    ensures r == BuildQuery(id, host, qtype)
  {
    hide Labels, TrimDots, Question;
    var header := QueryHeader(id, RECURSION_DESIRED);
    var out := header;
    var ls := Labels(TrimDots(host));
    for i := 0 to |ls|
      invariant forall k :: 0 <= k < i ==> LabelOk(ls[k])
      invariant out == header + LabelBytes(ls[..i])
    {
      if ls[i] == [] || |ls[i]| > 63 { return None; }
      LabelBytesSnoc(ls[..i], ls[i]);
      assert ls[..i + 1] == ls[..i] + [ls[i]];
      out := out + LabelOf(ls[i]);
    }
    assert ls[..|ls|] == ls;
    out := out + [0];
    assert out + Question(qtype) == header + (LabelBytes(ls) + [0] + Question(qtype));
    r := Some(out + Question(qtype));
  }

  lemma {:induction false} LabelBytesSnoc(ls: seq<Bytes>, l: Bytes)
    requires (forall i :: 0 <= i < |ls| ==> LabelOk(ls[i])) && LabelOk(l)
    ensures LabelBytes(ls + [l]) == LabelBytes(ls) + LabelOf(l)
  {
    hide LabelOk, LabelOf;
    if ls == [] {
      assert [] + [l] == [l] && [l][1..] == [];
    } else {
      LabelBytesSnoc(ls[1..], l);
      assert (ls + [l])[1..] == ls[1..] + [l];
    }
  }

  method WalkName(msg: Bytes, start: nat) returns (r: Option<nat>)
    ensures r == SkipName(msg, start)
  {
    var pos: nat := start;
    for i := 0 to MAX_LABELS
      invariant SkipFrom(msg, pos, MAX_LABELS - i) == SkipName(msg, start)
    {
      if pos >= |msg| { return None; }
      var len := msg[pos];
      if len == 0 { return Some(pos + 1); }
      if IsPointer(len) { return Some(pos + 2); }
      pos := pos + 1 + len;
    }
    return None;
  }

  method CollectName(msg: Bytes, start: nat) returns (r: Option<Bytes>)
    ensures r == ReadName(msg, start)
  {
    hide WithLabel;
    var pos: nat, hops: nat := start, 0;
    var out: Bytes := [];
    while true
      invariant hops <= MAX_HOPS && ReadFrom(msg, pos, hops, out) == ReadName(msg, start)
      decreases MAX_HOPS - hops, Left(msg, pos)
    {
      if pos >= |msg| { return None; }
      var len := msg[pos];
      if len == 0 { return Some(out); }
      if IsPointer(len) {
        if pos + 1 >= |msg| || hops + 1 > MAX_HOPS { return None; }
        pos := Target(len, msg[pos + 1]);
        hops := hops + 1;
      } else {
        var end := pos + 1 + len;
        if end > |msg| { return None; }
        out := WithLabel(out, msg[pos + 1..end]);
        pos := end;
      }
    }
  }

  method CollectAnswer(msg: Bytes, id: nat, qtype: nat) returns (r: Option<Answer>)
    ensures r == ParseAnswer(msg, id, qtype)
  {
    hide SkipName, WithRecord, At16;
    if |msg| < 12 || At16(msg, 0) != id || At16(msg, 2) < 0x8000 || At16(msg, 2) % 16 != 0 { return None; }
    var questions, records := At16(msg, 4), At16(msg, 6);
    var pos: nat := 12;
    for i := 0 to questions
      invariant SkipQuestions(msg, pos, questions - i) == SkipQuestions(msg, 12, questions)
    {
      var after := SkipName(msg, pos);
      if after.None? { return None; }
      pos := after.value + 4;
    }
    ghost var first := pos;
    var answer := Answer([], None);
    for i := 0 to records
      invariant Records(msg, pos, records - i, qtype, answer) == Records(msg, first, records, qtype, Answer([], None))
    {
      var after := SkipName(msg, pos);
      if after.None? { return None; }
      var p := after.value;
      if p + 10 > |msg| { return None; }
      var end := p + 10 + At16(msg, p + 8);
      if end > |msg| { return None; }
      answer := WithRecord(answer, msg, p + 10, end, At16(msg, p), qtype);
      pos := end;
    }
    return Some(answer);
  }
}
