/** What the decoder recovers from an encoded M-Send.req. */
module MmsRoundTrip {
  import opened Util
  import opened Wsp
  import opened MmsPdu

  // --------------------------------------------------------- what may be sent

  /** Free of NUL, and after trimming not starting with a control byte or the quote byte. */
  predicate AddressOk(addr: Bytes) {
    var a := TrimRight(TrimLeft(addr));
    NoNul(a) && (a != [] ==> a[0] >= 0x20 && a[0] != 0x7F) && |a| < 0xFF_0000_0000_0000
  }

  predicate NameOk(name: Option<EncText>) {
    name.Some? ==> name.value.charset == Utf8 && TextSafe(name.value.raw) && (name.value.raw != [] ==> name.value.raw[0] >= 0x20)
  }

  /** NUL-free and not itself starting or ending in an angle bracket. */
  predicate IdOk(cid: Bytes) {
    NoNul(cid) && (cid != [] ==> !IsBracket(cid[0]) && !IsBracket(cid[|cid| - 1]))
  }

  predicate PartOk(part: MmsPart) {
    && (ContentTypeCode(part.contentType).None? ==> TextSafe(part.contentType))
    && NameOk(Name(part))
    && (part.contentId.Some? ==> IdOk(part.contentId.value))
    && (part.contentLocation.Some? ==> TextSafe(part.contentLocation.value))
    && |PartType(part)| < UINTVAR_LIMIT
    && |PartHeaderBytes(part)| < UINTVAR_LIMIT
    && |part.data| < UINTVAR_LIMIT
  }

  predicate SubjectOk(subject: Option<Bytes>) {
    subject.Some? ==> EncodedSafe(subject.value) && |subject.value| < 0xFF_0000_0000_0000
  }

  predicate SendReqOk(req: SendReq) {
    && TextSafe(req.transactionId)
    && (req.from.Some? ==> AddressOk(req.from.value))
    && (forall a <- req.to :: AddressOk(a))
    && SubjectOk(req.subject)
    && |req.parts| <= MAX_PARTS
    && (forall part <- req.parts :: PartOk(part))
    && |BodyType(req.parts)| < UINTVAR_LIMIT
  }

  // ------------------------------------------------------------ what comes back

  /** The part the decoder builds from an encoded one. */
  function Received(part: MmsPart): MmsPart {
    MmsPart(
      match ContentTypeCode(part.contentType)
      case Some(code) => ContentTypeName(code)
      case None => part.contentType,
      (if IsText(part.contentType) then [(Ascii("charset"), Plain(Ascii("UTF-8")))] else []) +
      (if Name(part).Some? then [(Ascii("name"), Name(part).value)] else []),
      part.contentId,
      part.contentLocation,
      part.data)
  }

  /** Content type up to case, name, id, location and data all survive. */
  lemma ReceivedKeepsEverything(part: MmsPart)
    ensures EqIgnoreCase(Received(part).contentType, part.contentType)
    ensures Name(Received(part)) == Name(part)
    ensures Received(part).contentId == part.contentId && Received(part).contentLocation == part.contentLocation
    ensures Received(part).data == part.data
  {
    var ps := Received(part).params;
    var cs: Params := if IsText(part.contentType) then [(Ascii("charset"), Plain(Ascii("UTF-8")))] else [];
    var ns: Params := if Name(part).Some? then [(Ascii("name"), Name(part).value)] else [];
    assert |Ascii("charset")| == 7 && |Ascii("name")| == 4 && |Ascii("filename")| == 8;
    assert NameParam(ns) == Name(part);
    if cs != [] {
      assert ps[1..] == ns;
    } else {
      assert ps == ns;
    }
  }

  // ---------------------------------------------------------- one header at a time

  lemma FormattedIsSafe(addr: Bytes)
    requires AddressOk(addr)
    ensures EncodedSafe(FormatAddress(addr)) && |FormatAddress(addr)| + 20 < UINTVAR_LIMIT
  {
    var a := TrimRight(TrimLeft(addr));
    var f := FormatAddress(addr);
    var plmn := Ascii("/TYPE=PLMN");
    assert plmn == [47, 84, 89, 80, 69, 61, 80, 76, 77, 78];
    assert f == a || f == a + plmn;
    assert NoNul(f);
    assert f == [] || f[0] == 47 || (a != [] && f[0] == a[0]);
  }

  lemma EncodedLength(t: Bytes)
    requires |t| + 2 < UINTVAR_LIMIT
    ensures |t| < |EncodedBytes(t)| <= |t| + 11
  {
    GroupsFit(|t| + 2);
  }

  predicate Sendable(t: Bytes) {
    EncodedSafe(t) && |t| + 20 < UINTVAR_LIMIT
  }

  function Plainly(t: Option<Bytes>): Option<EncText> {
    if t.Some? then Some(Plain(t.value)) else None
  }

  lemma FromInnerRead(sender: Option<Bytes>)
    requires sender.Some? ==> Sendable(sender.value)
    ensures FromAddress(FromInner(sender)) == Plainly(sender) && |FromInner(sender)| < UINTVAR_LIMIT
  {
    hide EncodedString, EncodedBytes, EncodedSafe;
    if sender.Some? {
      var inner := FromInner(sender);
      EncodedLength(sender.value);
      AtWhole(inner);
      AtSplit(inner, 0, [0x80], EncodedBytes(sender.value));
      EncodedReadAt(inner, 1, sender.value);
    }
  }

  lemma FromField(d: Bytes, p: nat, sender: Option<Bytes>, msg: MmsMessage)
    requires At(d, p, Counted(FromInner(sender))) && (sender.Some? ==> Sendable(sender.value))
    ensures Field(msg, 0x89, d, p) == Read(Some(msg.(from := Plainly(sender))), p + |Counted(FromInner(sender))|)
  {
    hide Block, At, FromAddress, FromInner, Counted;
    FromInnerRead(sender);
    BlockReadAt(d, p, FromInner(sender));
  }

  lemma ToField(d: Bytes, p: nat, a: Bytes, msg: MmsMessage)
    requires At(d, p, EncodedBytes(a)) && Sendable(a)
    ensures Field(msg, 0x97, d, p) == Read(Some(msg.(to := msg.to + [Plain(a)])), p + |EncodedBytes(a)|)
  {
    hide EncodedString, EncodedBytes, At, EncodedSafe;
    EncodedReadAt(d, p, a);
  }

  lemma SubjectField(d: Bytes, p: nat, s: Bytes, msg: MmsMessage)
    requires At(d, p, EncodedBytes(s)) && Sendable(s)
    ensures Field(msg, 0x96, d, p) == Read(Some(msg.(subject := Some(Plain(s)))), p + |EncodedBytes(s)|)
  {
    hide EncodedString, EncodedBytes, At, EncodedSafe;
    EncodedReadAt(d, p, s);
  }

  lemma TransactionField(d: Bytes, p: nat, tid: Bytes, msg: MmsMessage)
    requires At(d, p, TextBytes(tid)) && TextSafe(tid)
    ensures Field(msg, 0x98, d, p) == Read(Some(msg.(transactionId := Some(tid))), p + |TextBytes(tid)|)
  {
    hide TextString, TextBytes, At, TextSafe;
    TextReadAt(d, p, tid);
  }

  /** Message type, version, class and the two report flags are single bytes. */
  lemma ByteFields(d: Bytes, p: nat, v: byte, msg: MmsMessage)
    requires p < |d| && d[p] == v && v >= 128
    ensures Field(msg, 0x8C, d, p) == Read(Some(msg.(messageType := v)), p + 1)
    ensures Field(msg, 0x8D, d, p) == Read(Some(msg.(version := Some(v))), p + 1)
    ensures Field(msg, 0x86, d, p) == Read(Some(msg), p + 1)
    ensures Field(msg, 0x90, d, p) == Read(Some(msg), p + 1)
    ensures v == 0x80 ==> Field(msg, 0x8A, d, p) == Read(Some(msg.(messageClass := Some(Ascii("personal")))), p + 1)
  {
  }

  // ---------------------------------------------------------- through the headers

  predicate HeaderOk(h: Header) {
    match h
    case TransactionId(tid) => TextSafe(tid)
    case From(sender) => sender.Some? ==> Sendable(sender.value)
    case To(recipient) => Sendable(recipient)
    case Subject(text) => Sendable(text)
    case _ => true
  }

  /** What one header does to the message being filled in. */
  function Apply(h: Header, msg: MmsMessage): MmsMessage {
    match h
    case MessageType => msg.(messageType := 0x80)
    case TransactionId(tid) => msg.(transactionId := Some(tid))
    case Version => msg.(version := Some(0x92))
    case From(sender) => msg.(from := Plainly(sender))
    case To(recipient) => msg.(to := msg.to + [Plain(recipient)])
    case Subject(text) => msg.(subject := Some(Plain(text)))
    case Class => msg.(messageClass := Some(Ascii("personal")))
    case DeliveryReport(_) => msg
    case ReadReport(_) => msg
  }

  function ApplyAll(hs: seq<Header>, msg: MmsMessage): MmsMessage
    decreases |hs|
  {
    if hs == [] then msg else ApplyAll(hs[1..], Apply(hs[0], msg))
  }

  lemma HeaderField(d: Bytes, p: nat, h: Header, msg: MmsMessage)
    requires HeaderOk(h) && At(d, p, HeaderValue(h)) && p <= |d|
    ensures Field(msg, HeaderCode(h), d, p) == Read(Some(Apply(h, msg)), p + |HeaderValue(h)|)
  {
    hide Field, TextBytes, Counted, EncodedBytes, EncodedSafe, TextSafe;
    match h
    case TransactionId(tid) => TransactionField(d, p, tid, msg);
    case From(sender) => FromField(d, p, sender, msg);
    case To(recipient) => ToField(d, p, recipient, msg);
    case Subject(text) => SubjectField(d, p, text, msg);
    case _ => ByteFields(d, p, HeaderValue(h)[0], msg);
  }

  lemma FieldLeads(d: Bytes, p: nat, b: byte, msg: MmsMessage, q: nat, msg': MmsMessage)
    requires p < |d| && d[p] == b && b >= 128 && b != 0x84 && q <= |d|
    requires Field(msg, b, d, p + 1) == Read(Some(msg'), q)
    ensures DecodeHeaders(d, p, msg) == DecodeHeaders(d, q, msg')
  {
    hide Field, TextString, SkipValue, ContentType;
  }

  /** Header `h` stands at `p`. */
  ghost predicate Here(d: Bytes, p: nat, h: Header) {
    HeaderOk(h) && At(d, p, [HeaderCode(h)]) && At(d, p + 1, HeaderValue(h)) && p + 1 + |HeaderValue(h)| <= |d|
  }

  lemma HeaderLeads(d: Bytes, p: nat, h: Header, msg: MmsMessage)
    requires Here(d, p, h)
    ensures DecodeHeaders(d, p, msg) == DecodeHeaders(d, p + 1 + |HeaderValue(h)|, Apply(h, msg))
  {
    hide Field, DecodeHeaders, Apply, HeaderValue;
    AtFirst(d, p, [HeaderCode(h)]);
    HeaderField(d, p + 1, h, msg);
    FieldLeads(d, p, HeaderCode(h), msg, p + 1 + |HeaderValue(h)|, Apply(h, msg));
  }

  /** `read` gives the same outcome before and after any header that stands in `d`. */
  ghost predicate PassesHeaders(d: Bytes, read: (nat, MmsMessage) -> Headers) {
    forall p: nat, h: Header, msg: MmsMessage :: Here(d, p, h) ==> read(p, msg) == read(p + 1 + |HeaderValue(h)|, Apply(h, msg))
  }

  lemma {:induction false} PassesAll(d: Bytes, read: (nat, MmsMessage) -> Headers, p: nat, hs: seq<Header>, msg: MmsMessage)
    requires PassesHeaders(d, read)
    requires (forall i :: 0 <= i < |hs| ==> HeaderOk(hs[i])) && At(d, p, HeadersBytes(hs)) && p + |HeadersBytes(hs)| <= |d|
    ensures read(p, msg) == read(p + |HeadersBytes(hs)|, ApplyAll(hs, msg))
    decreases |hs|
  {
    hide At, Apply, HeaderValue, HeaderOk;
    if hs != [] {
      var code, value, rest := [HeaderCode(hs[0])], HeaderValue(hs[0]), HeadersBytes(hs[1..]);
      AtSplit(d, p, code + value, rest);
      AtSplit(d, p, code, value);
      assert Here(d, p, hs[0]);
      PassesAll(d, read, p + 1 + |value|, hs[1..], Apply(hs[0], msg));
    }
  }

  lemma HeadersLead(d: Bytes, hs: seq<Header>)
    requires (forall i :: 0 <= i < |hs| ==> HeaderOk(hs[i])) && At(d, 0, HeadersBytes(hs)) && |HeadersBytes(hs)| <= |d|
    ensures DecodeHeaders(d, 0, EMPTY_MESSAGE) == DecodeHeaders(d, |HeadersBytes(hs)|, ApplyAll(hs, EMPTY_MESSAGE))
  {
    hide DecodeHeaders, At, Apply, ApplyAll, HeaderValue, HeadersBytes, HeaderOk;
    var read := (p: nat, msg: MmsMessage) => if p <= |d| then DecodeHeaders(d, p, msg) else BadContentType;
    forall p: nat, h: Header, msg: MmsMessage | Here(d, p, h)
      ensures read(p, msg) == read(p + 1 + |HeaderValue(h)|, Apply(h, msg))
    {
      HeaderLeads(d, p, h, msg);
    }
    PassesAll(d, read, 0, hs, EMPTY_MESSAGE);
    assert read(0, EMPTY_MESSAGE) == read(|HeadersBytes(hs)|, ApplyAll(hs, EMPTY_MESSAGE));
  }

  // ------------------------------------------------------------- through a part

  function ReceivedType(contentType: Bytes): Bytes {
    match ContentTypeCode(contentType)
    case Some(code) => ContentTypeName(code)
    case None => contentType
  }

  lemma TypeRead(inner: Bytes, contentType: Bytes)
    requires At(inner, 0, TypeBytes(contentType)) && (ContentTypeCode(contentType).None? ==> TextSafe(contentType))
    ensures InnerType(inner) == Read(Some(ReceivedType(contentType)), |TypeBytes(contentType)|)
  {
    hide ContentTypeCode, ContentTypeName, TextString, TextSafe;
    AtFirst(inner, 0, TypeBytes(contentType));
    if ContentTypeCode(contentType).None? {
      TextReadAt(inner, 0, contentType);
    }
  }

  function CharsetParams(contentType: Bytes): Params {
    if IsText(contentType) then [(Ascii("charset"), Plain(Ascii("UTF-8")))] else []
  }

  function NameParams(name: Option<EncText>): Params {
    if name.Some? then [(Ascii("name"), name.value)] else []
  }

  lemma CharsetParameter(inner: Bytes, p: nat)
    requires p + 2 <= |inner| && inner[p] == 0x81 && inner[p + 1] == 0xEA
    ensures Parameter(inner, p) == Read(Some((Ascii("charset"), Plain(Ascii("UTF-8")))), p + 2)
  {
    hide LongInt, TextString, EncodedString, Uintvar;
  }

  lemma CharsetRead(inner: Bytes, p: nat, contentType: Bytes)
    requires At(inner, p, CharsetBytes(contentType))
    ensures var q := p + |CharsetBytes(contentType)|;
            q <= |inner| && ParameterList(inner, p) == CharsetParams(contentType) + ParameterList(inner, q)
  {
    hide IsText, Parameter, ParameterList, At, IntegerBytes;
    AtMeans(inner, p, CharsetBytes(contentType));
    if IsText(contentType) {
      Utf8Marker();
      AtSplit(inner, p, [0x81], [0xEA]);
      AtFirst(inner, p, [0x81]);
      AtFirst(inner, p + 1, [0xEA]);
      CharsetParameter(inner, p);
      ParameterListStep(inner, p);
    } else {
      assert [] + ParameterList(inner, p) == ParameterList(inner, p);
    }
  }

  lemma Utf8Marker()
    ensures IntegerBytes(UTF8_MIB) == [0xEA]
  {
  }

  lemma NameParameter(inner: Bytes, p: nat, raw: Bytes, q: nat)
    requires p < |inner| && inner[p] == 0x97 && EncodedString(inner, p + 1) == Read(Some(Plain(raw)), q)
    ensures Parameter(inner, p) == Read(Some((Ascii("name"), Plain(raw))), q)
  {
    hide EncodedString, TextString, IntegerValue, Uintvar;
  }

  lemma NameRead(inner: Bytes, p: nat, name: Option<EncText>)
    requires At(inner, p, NameBytes(name)) && NameOk(name) && p + |NameBytes(name)| == |inner|
    ensures ParameterList(inner, p) == NameParams(name)
  {
    hide EncodedString, TextBytes, TextSafe, Parameter, ParameterList, At;
    if name.Some? {
      var raw := name.value.raw;
      AtSplit(inner, p, [0x97], TextBytes(raw));
      AtFirst(inner, p, [0x97]);
      TextAsEncodedReadAt(inner, p + 1, raw);
      NameParameter(inner, p, raw, |inner|);
      ParameterListStep(inner, p);
      ParameterListStep(inner, |inner|);
    } else {
      ParameterListStep(inner, p);
    }
  }

  lemma PartTypeRead(part: MmsPart)
    requires PartOk(part)
    ensures CountedType(PartType(part)) == Some((Received(part).contentType, Received(part).params))
  {
    hide InnerType, ParameterList, At, TypeBytes, CharsetBytes, NameBytes, Name, NameOk, ContentTypeCode;
    var inner := PartType(part);
    var a, b, c := TypeBytes(part.contentType), CharsetBytes(part.contentType), NameBytes(Name(part));
    AtWhole(inner);
    AtSplit(inner, 0, a + b, c);
    AtSplit(inner, 0, a, b);
    TypeRead(inner, part.contentType);
    CharsetRead(inner, |a|, part.contentType);
    NameRead(inner, |a + b|, Name(part));
  }

  lemma {:induction false} BracketsStripped(cid: Bytes)
    requires IdOk(cid)
    ensures TrimBrackets(Bracketed(cid)) == cid && TextSafe(Bracketed(cid))
  {
    var b := Bracketed(cid);
    assert b[1..] == cid + [62];
    assert TrimBrackets(b) == TrimBrackets(cid + [62]);
    if cid != [] {
      assert (cid + [62])[..|cid|] == cid;
    }
    assert TrimBrackets(cid + [62]) == TrimBrackets(cid);
  }

  lemma IdStep(h: Bytes, p: nat, acc: MmsPart)
    requires p < |h| && h[p] == 0xC0
    ensures var v := TextString(h, p + 1);
            v.value.Some? ==> PartHeaders(h, p, acc) == PartHeaders(h, v.pos, acc.(contentId := Some(TrimBrackets(v.value.value))))
  {
    hide TextString, TrimBrackets, SkipValue;
  }

  lemma IdFound(h: Bytes, p: nat, cid: Bytes, acc: MmsPart)
    requires IdOk(cid) && At(h, p, [0xC0] + TextBytes(Bracketed(cid)))
    ensures var q := p + 1 + |TextBytes(Bracketed(cid))|;
            q <= |h| && PartHeaders(h, p, acc) == PartHeaders(h, q, acc.(contentId := Some(cid)))
  {
    hide TextString, TextBytes, TextSafe, Bracketed, IdOk, TrimBrackets, PartHeaders, At;
    var t := Bracketed(cid);
    BracketsStripped(cid);
    AtSplit(h, p, [0xC0], TextBytes(t));
    AtFirst(h, p, [0xC0]);
    AtMeans(h, p, [0xC0]);
    TextReadAt(h, p + 1, t);
    IdStep(h, p, acc);
  }

  lemma IdRead(h: Bytes, p: nat, part: MmsPart, acc: MmsPart)
    requires At(h, p, IdBytes(part)) && acc.contentId.None? && (part.contentId.Some? ==> IdOk(part.contentId.value))
    ensures var q := p + |IdBytes(part)|;
            q <= |h| && PartHeaders(h, p, acc) == PartHeaders(h, q, acc.(contentId := part.contentId))
  {
    hide TextBytes, Bracketed, IdOk, PartHeaders;
    if part.contentId.Some? {
      IdFound(h, p, part.contentId.value, acc);
    } else {
      assert acc.(contentId := None) == acc;
    }
  }

  lemma LocationRead(h: Bytes, p: nat, part: MmsPart, acc: MmsPart)
    requires At(h, p, LocationBytes(part)) && acc.contentLocation.None? && p + |LocationBytes(part)| == |h|
    requires part.contentLocation.Some? ==> TextSafe(part.contentLocation.value)
    ensures PartHeaders(h, p, acc) == acc.(contentLocation := part.contentLocation)
  {
    if part.contentLocation.Some? {
      hide TextString, TextBytes, TextSafe, SkipValue;
      var t := part.contentLocation.value;
      AtSplit(h, p, [0x8E], TextBytes(t));
      AtFirst(h, p, [0x8E]);
      TextReadAt(h, p + 1, t);
    } else {
      assert acc.(contentLocation := None) == acc;
    }
  }

  lemma CountedTypeReadAt(d: Bytes, p: nat, inner: Bytes)
    requires |inner| < UINTVAR_LIMIT && At(d, p, Counted(inner))
    ensures p <= |d| && ContentType(d, p) == Read(CountedType(inner), p + |Counted(inner)|)
  {
    hide BoundedValueLength, CountedType, BareType, At;
    CountedReadAt(d, p, inner);
  }

  lemma PartRead(part: MmsPart)
    requires PartOk(part)
    ensures DecodePart(PartHeaderBytes(part), part.data) == Received(part)
  {
    hide ContentType, CountedType, PartHeaders, At, IdBytes, LocationBytes, PartType, Counted, TextSafe, IdOk, NameOk, ContentTypeCode, Name;
    var h := PartHeaderBytes(part);
    var ct, id, loc := Counted(PartType(part)), IdBytes(part), LocationBytes(part);
    AtWhole(h);
    AtSplit(h, 0, ct + id, loc);
    AtSplit(h, 0, ct, id);
    CountedTypeReadAt(h, 0, PartType(part));
    PartTypeRead(part);
    var blank := MmsPart(Received(part).contentType, Received(part).params, None, None, part.data);
    IdRead(h, |ct|, part, blank);
    LocationRead(h, |ct + id|, part, blank.(contentId := part.contentId));
  }

  /** Two lengths and as many bytes as they announce make an extent. */
  lemma ExtentOfLengths(d: Bytes, p: nat, q: nat, r: nat, hl: nat, dl: nat)
    requires p <= q <= r && r + hl + dl <= |d|
    requires Uintvar(d, p) == Read(Some(hl), q) && Uintvar(d, q) == Read(Some(dl), r)
    ensures PartExtent(d, p) == Some(Extent(r, r + hl, r + hl + dl))
  {
    hide Uintvar;
  }

  /** A header block and a payload behind their two lengths are found again. */
  lemma FramedRead(d: Bytes, p: nat, h: Bytes, x: Bytes)
    requires |h| < UINTVAR_LIMIT && |x| < UINTVAR_LIMIT && At(d, p, UintvarBytes(|h|) + UintvarBytes(|x|) + h + x)
    ensures p <= |d| && PartExtent(d, p).Some?
    ensures var e := PartExtent(d, p).value;
            && e.end == p + |UintvarBytes(|h|)| + |UintvarBytes(|x|)| + |h| + |x|
            && At(d, e.headers, h) && e.data == e.headers + |h| && At(d, e.data, x) && e.end == e.data + |x|
  {
    hide Uintvar, UintvarBytes, PartExtent, At;
    var a, b := UintvarBytes(|h|), UintvarBytes(|x|);
    AtSplit(d, p, a + b + h, x);
    AtSplit(d, p, a + b, h);
    AtSplit(d, p, a, b);
    UintvarReadAt(d, p, |h|);
    UintvarReadAt(d, p + |a|, |x|);
    AtMeans(d, p + |a + b + h|, x);
    ExtentOfLengths(d, p, p + |a|, p + |a + b|, |h|, |x|);
  }

  lemma PartExtentRead(d: Bytes, p: nat, part: MmsPart)
    requires PartOk(part) && At(d, p, PartBytes(part))
    ensures p <= |d| && PartExtent(d, p).Some?
    ensures var e := PartExtent(d, p).value;
            && e.end == p + |PartBytes(part)|
            && d[e.headers..e.data] == PartHeaderBytes(part) && d[e.data..e.end] == part.data
  {
    hide UintvarBytes, PartHeaderBytes, NameOk, ContentTypeCode, PartExtent, At;
    var h := PartHeaderBytes(part);
    FramedRead(d, p, h, part.data);
    var e := PartExtent(d, p).value;
    AtMeans(d, e.headers, h);
    AtMeans(d, e.data, part.data);
  }

  lemma PartReadAt(d: Bytes, p: nat, part: MmsPart)
    requires PartOk(part) && At(d, p, PartBytes(part))
    ensures p <= |d| && PartExtent(d, p).Some?
    ensures var e := PartExtent(d, p).value;
            e.end == p + |PartBytes(part)| && PartAt(d, e) == Received(part)
  {
    hide PartExtent, PartBytes, DecodePart, PartOk, Received, PartHeaderBytes, At;
    PartExtentRead(d, p, part);
    PartRead(part);
  }

  lemma {:induction false} PartsRead(d: Bytes, p: nat, parts: seq<MmsPart>)
    requires (forall i :: 0 <= i < |parts| ==> PartOk(parts[i])) && At(d, p, PartsBytes(parts))
    ensures p <= |d|
    ensures var es := Extents(d, p, |parts|);
            |es| == |parts| && forall i :: 0 <= i < |es| ==>
              es[i].headers <= es[i].data <= es[i].end <= |d| && PartAt(d, es[i]) == Received(parts[i])
    decreases |parts|
  {
    hide PartExtent, PartOk, PartBytes, PartAt, Received;
    if parts != [] {
      AtSplit(d, p, PartBytes(parts[0]), PartsBytes(parts[1..]));
      PartReadAt(d, p, parts[0]);
      var e := PartExtent(d, p).value;
      PartsRead(d, e.end, parts[1..]);
      var rest := Extents(d, e.end, |parts[1..]|);
      assert Extents(d, p, |parts|) == [e] + rest;
    }
  }

  lemma MultipartRead(parts: seq<MmsPart>)
    requires |parts| <= MAX_PARTS && forall i :: 0 <= i < |parts| ==> PartOk(parts[i])
    ensures var got := DecodeMultipart(MultipartBytes(parts));
            |got| == |parts| && forall i :: 0 <= i < |parts| ==> got[i] == Received(parts[i])
  {
    hide Uintvar, UintvarBytes, PartsBytes, PartOk, Received, Extents, PartAt;
    var d := MultipartBytes(parts);
    AtWhole(d);
    AtSplit(d, 0, UintvarBytes(|parts|), PartsBytes(parts));
    UintvarReadAt(d, 0, |parts|);
    PartsRead(d, |UintvarBytes(|parts|)|, parts);
  }

  // -------------------------------------------------------------- the whole PDU

  lemma AsciiPrefix(s: string, t: string)
    requires |t| <= |s| && s[..|t|] == t
    ensures IsPrefix(Ascii(t), Ascii(s))
  {
    forall i | 0 <= i < |t|
      ensures Ascii(s)[i] == Ascii(t)[i]
    {
      assert s[i] == s[..|t|][i];
    }
    assert Ascii(s)[..|t|] == Ascii(t);
  }

  lemma BodyTypesAreMultipart()
    ensures IsMultipart(ContentTypeName(0x33)) && IsMultipart(ContentTypeName(0x23))
  {
    var prefix := "application/vnd.wap.multipart";
    assert CONTENT_TYPES[0x33] == "application/vnd.wap.multipart.related";
    assert CONTENT_TYPES[0x23] == "application/vnd.wap.multipart.mixed";
    assert "application/vnd.wap.multipart.related" == prefix + ".related";
    assert "application/vnd.wap.multipart.mixed" == prefix + ".mixed";
    AsciiPrefix(CONTENT_TYPES[0x33], prefix);
    AsciiPrefix(CONTENT_TYPES[0x23], prefix);
  }

  lemma BodyTypeRead(parts: seq<MmsPart>)
    ensures CountedType(BodyType(parts)).Some? && IsMultipart(CountedType(BodyType(parts)).value.0)
  {
    hide ParameterList, TextBytes, ContentTypeName, IsMultipart;
    BodyTypesAreMultipart();
    var inner := BodyType(parts);
    assert inner[0] == 0xB3 || inner[0] == 0xA3;
  }

  lemma BodyReadAt(d: Bytes, p: nat, parts: seq<MmsPart>, msg: MmsMessage)
    requires At(d, p, BodyBytes(parts)) && p + |BodyBytes(parts)| == |d| && |BodyType(parts)| < UINTVAR_LIMIT
    ensures p <= |d| && DecodeHeaders(d, p, msg).BodyFrom?
    ensures var r := DecodeHeaders(d, p, msg);
            && d[r.start..] == MultipartBytes(parts)
            && r.msg.contentType.Some? && IsMultipart(r.msg.contentType.value)
            && r.msg == msg.(contentType := r.msg.contentType, contentTypeParams := r.msg.contentTypeParams)
  {
    hide ContentType, CountedType, BodyType, Counted, MultipartBytes, Field, SkipValue, TextString, IsMultipart;
    var head := [0x84] + Counted(BodyType(parts));
    AtSplit(d, p, head, MultipartBytes(parts));
    AtSplit(d, p, [0x84], Counted(BodyType(parts)));
    AtFirst(d, p, [0x84]);
    CountedTypeReadAt(d, p + 1, BodyType(parts));
    BodyTypeRead(parts);
    assert ContentType(d, p + 1).pos == p + |head|;
    assert d[p + |head|..] == d[p + |head|..p + |head| + |MultipartBytes(parts)|];
  }

  lemma {:induction false} ApplyAppend(a: seq<Header>, b: seq<Header>, msg: MmsMessage)
    ensures ApplyAll(a + b, msg) == ApplyAll(b, ApplyAll(a, msg))
    decreases |a|
  {
    hide Apply;
    if a == [] {
      assert a + b == b;
    } else {
      assert (a + b)[1..] == a[1..] + b;
      ApplyAppend(a[1..], b, Apply(a[0], msg));
    }
  }

  function PlainAll(ts: seq<Bytes>): seq<EncText> {
    seq(|ts|, i requires 0 <= i < |ts| => Plain(ts[i]))
  }

  lemma {:induction false} ApplyRecipients(rs: seq<Bytes>, msg: MmsMessage)
    ensures ApplyAll(RecipientHeaders(rs), msg) == msg.(to := msg.to + PlainAll(rs))
    decreases |rs|
  {
    if rs == [] {
      assert msg.to + PlainAll(rs) == msg.to;
    } else {
      assert RecipientHeaders(rs)[1..] == RecipientHeaders(rs[1..]);
      var msg' := Apply(To(rs[0]), msg);
      ApplyRecipients(rs[1..], msg');
      assert msg'.to + PlainAll(rs[1..]) == msg.to + PlainAll(rs);
    }
  }

  function NonEmpty(subject: Option<Bytes>): Option<Bytes> {
    if subject.Some? && subject.value != [] then subject else None
  }

  /** The message after the headers of a request have been read. */
  function HeaderMessage(req: SendReq): MmsMessage {
    EMPTY_MESSAGE.(
      messageType := 0x80,
      transactionId := Some(req.transactionId),
      version := Some(0x92),
      from := Plainly(Sender(req.from)),
      to := PlainAll(Recipients(req.to)),
      subject := Plainly(NonEmpty(req.subject)),
      messageClass := Some(Ascii("personal")))
  }

  lemma ApplyHeaders(req: SendReq)
    ensures ApplyAll(HeadersOf(req), EMPTY_MESSAGE) == HeaderMessage(req)
  {
    hide Sender, Recipients, PlainAll, RecipientHeaders;
    var front := [MessageType, TransactionId(req.transactionId), Version, From(Sender(req.from))];
    var tos := RecipientHeaders(Recipients(req.to));
    var subj := SubjectHeaders(req.subject);
    var tail := [Class, DeliveryReport(req.deliveryReport), ReadReport(req.readReport)];
    ApplyAppend(front + tos + subj, tail, EMPTY_MESSAGE);
    ApplyAppend(front + tos, subj, EMPTY_MESSAGE);
    ApplyAppend(front, tos, EMPTY_MESSAGE);
    var m1 := ApplyFront(req);
    ApplyRecipients(Recipients(req.to), m1);
    assert [] + PlainAll(Recipients(req.to)) == PlainAll(Recipients(req.to));
    var m2 := m1.(to := PlainAll(Recipients(req.to)));
    var m3 := ApplySubject(req.subject, m2);
    ApplyTail(req.deliveryReport, req.readReport, m3);
  }

  lemma ApplyOne(h: Header, msg: MmsMessage)
    ensures ApplyAll([h], msg) == Apply(h, msg)
  {
    assert [h][1..] == [];
  }

  lemma ApplyFront(req: SendReq) returns (m: MmsMessage)
    ensures m == ApplyAll([MessageType, TransactionId(req.transactionId), Version, From(Sender(req.from))], EMPTY_MESSAGE)
    ensures m == EMPTY_MESSAGE.(messageType := 0x80, transactionId := Some(req.transactionId), version := Some(0x92),
                                from := Plainly(Sender(req.from)))
  {
    hide Sender;
    var a, b, c, e := MessageType, TransactionId(req.transactionId), Version, From(Sender(req.from));
    assert [a, b, c, e][1..] == [b, c, e] && [b, c, e][1..] == [c, e] && [c, e][1..] == [e] && [e][1..] == [];
    m := Apply(e, Apply(c, Apply(b, Apply(a, EMPTY_MESSAGE))));
    ApplyOne(e, Apply(c, Apply(b, Apply(a, EMPTY_MESSAGE))));
    assert ApplyAll([c, e], Apply(b, Apply(a, EMPTY_MESSAGE))) == m;
    assert ApplyAll([a, b, c, e], EMPTY_MESSAGE) == ApplyAll([b, c, e], Apply(a, EMPTY_MESSAGE));
  }

  lemma ApplySubject(subject: Option<Bytes>, msg: MmsMessage) returns (m: MmsMessage)
    requires msg.subject == None
    ensures m == ApplyAll(SubjectHeaders(subject), msg) && m == msg.(subject := Plainly(NonEmpty(subject)))
  {
    m := msg.(subject := Plainly(NonEmpty(subject)));
    if NonEmpty(subject).Some? {
      assert SubjectHeaders(subject)[1..] == [];
    }
  }

  lemma ApplyTail(dr: bool, rr: bool, msg: MmsMessage)
    ensures ApplyAll([Class, DeliveryReport(dr), ReadReport(rr)], msg) == msg.(messageClass := Some(Ascii("personal")))
  {
    var a, b, c := Class, DeliveryReport(dr), ReadReport(rr);
    assert [a, b, c][1..] == [b, c] && [b, c][1..] == [c] && [c][1..] == [];
    ApplyOne(c, Apply(b, Apply(a, msg)));
    assert ApplyAll([b, c], Apply(a, msg)) == Apply(a, msg);
  }

  lemma HeadersAreOk(req: SendReq)
    requires SendReqOk(req)
    ensures forall i :: 0 <= i < |HeadersOf(req)| ==> HeaderOk(HeadersOf(req)[i])
  {
    hide TextSafe, EncodedSafe, FormatAddress, AddressOk, PartOk, BodyType;
    if req.from.Some? {
      FormattedIsSafe(req.from.value);
    }
    forall i | 0 <= i < |req.to|
      ensures Sendable(Recipients(req.to)[i])
    {
      assert req.to[i] in req.to;
      FormattedIsSafe(req.to[i]);
    }
  }

  /**
   M-Send.req round trip: decoding an encoded request recovers its transaction id, formatted sender and
   recipients, subject, and every part with its data, content type, name, content id and location.
   */
  lemma SendReqRoundTrip(req: SendReq)
    requires SendReqOk(req)
    ensures Decode(EncodeSendReq(req)).Some?
    ensures var m := Decode(EncodeSendReq(req)).value;
            && m.messageType == 0x80 && m.version == Some(0x92)
            && m.transactionId == Some(req.transactionId)
            && m.from == Plainly(Sender(req.from))
            && m.to == PlainAll(Recipients(req.to))
            && m.subject == Plainly(NonEmpty(req.subject))
            && |m.parts| == |req.parts|
    ensures var m := Decode(EncodeSendReq(req)).value;
            |m.parts| == |req.parts| && forall i :: 0 <= i < |req.parts| ==> m.parts[i] == Received(req.parts[i])
  {
    hide HeadersBytes, HeadersOf, BodyBytes, DecodeHeaders, ApplyAll, HeaderOk, At, Received, PartOk, DecodeMultipart,
      MultipartBytes, IsMultipart, BodyType, AddressOk, TextSafe, Recipients, PlainAll;
    var d := EncodeSendReq(req);
    var hs := HeadersOf(req);
    forall i | 0 <= i < |req.parts|
      ensures PartOk(req.parts[i])
    {
      assert req.parts[i] in req.parts;
    }
    HeadersAreOk(req);
    AtWhole(d);
    AtSplit(d, 0, HeadersBytes(hs), BodyBytes(req.parts));
    HeadersLead(d, hs);
    ApplyHeaders(req);
    BodyReadAt(d, |HeadersBytes(hs)|, req.parts, HeaderMessage(req));
    MultipartRead(req.parts);
  }
}
