/** MMS encapsulation (src/mms/pdu.rs, src/mms/mod.rs): decoding any PDU, encoding M-Send.req. */
module MmsPdu {
  import opened Util
  import opened Wsp

  datatype MmsPart = MmsPart(
    contentType: Bytes,
    params: Params,
    contentId: Option<Bytes>,
    contentLocation: Option<Bytes>,
    data: Bytes
  )

  datatype MmsMessage = MmsMessage(
    messageType: byte,
    transactionId: Option<Bytes>,
    version: Option<byte>,
    from: Option<EncText>,
    to: seq<EncText>,
    cc: seq<EncText>,
    subject: Option<EncText>,
    date: Option<nat>,
    messageId: Option<Bytes>,
    messageClass: Option<Bytes>,
    contentLocation: Option<Bytes>,
    messageSize: Option<nat>,
    expiry: Option<nat>,
    responseStatus: Option<byte>,
    retrieveStatus: Option<byte>,
    responseText: Option<EncText>,
    contentType: Option<Bytes>,
    contentTypeParams: Params,
    parts: seq<MmsPart>
  )

  const EMPTY_MESSAGE: MmsMessage :=
    MmsMessage(0, None, None, None, [], [], None, None, None, None, None, None, None, None, None, None, None, [], [])

  predicate IsPrefix(p: Bytes, s: Bytes) {
    |p| <= |s| && s[..|p|] == p
  }

  predicate Contains(s: Bytes, sub: Bytes) {
    IsPrefix(sub, s) || (s != [] && Contains(s[1..], sub))
  }

  predicate IsText(contentType: Bytes) {
    IsPrefix(Ascii("text/"), contentType)
  }

  predicate IsMultipart(contentType: Bytes) {
    IsPrefix(Ascii("multipart/"), contentType) || IsPrefix(Ascii("application/vnd.wap.multipart"), contentType)
  }

  /** First parameter called `name` or `filename`. */
  function NameParam(params: Params): Option<EncText> {
    if params == [] then None
    else if params[0].0 == Ascii("name") || params[0].0 == Ascii("filename") then Some(params[0].1)
    else NameParam(params[1..])
  }

  function Name(part: MmsPart): Option<EncText> {
    match NameParam(part.params)
    case Some(v) => Some(v)
    case None => if part.contentLocation.Some? then Some(Plain(part.contentLocation.value)) else None
  }

  predicate IsBracket(b: byte) {
    b == 60 || b == 62
  }

  function TrimBrackets(s: Bytes): Bytes
    decreases |s|
  {
    if s != [] && IsBracket(s[0]) then TrimBrackets(s[1..])
    else if s != [] && IsBracket(s[|s| - 1]) then TrimBrackets(s[..|s| - 1])
    else s
  }

  // ------------------------------------------------------------------- decode

  /** The header value of well-known field `b` at `p`; `None` means the loop stops. */
  function Field(msg: MmsMessage, b: byte, d: Bytes, p: nat): (r: Read<MmsMessage>)
    requires p <= |d|
    ensures Within(d, p, r.pos)
  {
    if b == 0x8C then
      var v := U8(d, p);
      Read(Some(msg.(messageType := if v.value.Some? then v.value.value else 0)), v.pos)
    else if b == 0x98 then var v := TextString(d, p); Read(Some(msg.(transactionId := v.value)), v.pos)
    else if b == 0x8D then var v := U8(d, p); Read(Some(msg.(version := v.value)), v.pos)
    else if b == 0x89 then
      var (inner, end) := Block(d, p);
      Read(Some(msg.(from := FromAddress(inner))), end)
    else if b == 0x97 then
      var v := EncodedString(d, p);
      Read(Some(if v.value.Some? then msg.(to := msg.to + [v.value.value]) else msg), v.pos)
    else if b == 0x82 then
      var v := EncodedString(d, p);
      Read(Some(if v.value.Some? then msg.(cc := msg.cc + [v.value.value]) else msg), v.pos)
    else if b == 0x96 then var v := EncodedString(d, p); Read(Some(msg.(subject := v.value)), v.pos)
    else if b == 0x8A then MessageClass(msg, d, p)
    else OtherField(msg, b, d, p)
  }

  function FromAddress(inner: Bytes): Option<EncText> {
    if inner != [] && inner[0] == 0x80 then EncodedString(inner, 1).value else None
  }

  function MessageClass(msg: MmsMessage, d: Bytes, p: nat): (r: Read<MmsMessage>)
    requires p <= |d|
    ensures Within(d, p, r.pos)
  {
    if p < |d| && d[p] >= 128 then
      var name := if d[p] == 0x80 then "personal" else if d[p] == 0x81 then "advertisement"
                  else if d[p] == 0x82 then "informational" else if d[p] == 0x83 then "auto" else "unknown";
      Read(Some(msg.(messageClass := Some(Ascii(name)))), p + 1)
    else
      var v := TextString(d, p);
      Read(Some(msg.(messageClass := v.value)), v.pos)
  }

  function OtherField(msg: MmsMessage, b: byte, d: Bytes, p: nat): (r: Read<MmsMessage>)
    requires p <= |d|
    ensures Within(d, p, r.pos)
  {
    if b == 0x8B then var v := TextString(d, p); Read(Some(msg.(messageId := v.value)), v.pos)
    else if b == 0x83 then var v := TextString(d, p); Read(Some(msg.(contentLocation := v.value)), v.pos)
    else if b == 0x85 then var v := LongInt(d, p); Read(Some(msg.(date := v.value)), v.pos)
    else if b == 0x8E then var v := IntegerValue(d, p); Read(Some(msg.(messageSize := v.value)), v.pos)
    else if b == 0x88 then
      var (inner, end) := Block(d, p);
      Read(Some(msg.(expiry := IntegerValue(inner, U8(inner, 0).pos).value)), end)
    else if b == 0x92 then var v := U8(d, p); Read(Some(msg.(responseStatus := v.value)), v.pos)
    else if b == 0x99 then var v := U8(d, p); Read(Some(msg.(retrieveStatus := v.value)), v.pos)
    else if b == 0x93 || b == 0x9A then var v := EncodedString(d, p); Read(Some(msg.(responseText := v.value)), v.pos)
    else
      var v := SkipValue(d, p);
      Read(if v.value.Some? then Some(msg) else None, v.pos)
  }

  datatype Headers = HeadersOnly(msg: MmsMessage) | BodyFrom(msg: MmsMessage, start: nat) | BadContentType

  /** The header loop; every turn consumes at least one byte. */
  function DecodeHeaders(d: Bytes, p: nat, msg: MmsMessage): (r: Headers)
    requires p <= |d|
    ensures r.BodyFrom? ==> p < r.start <= |d|
    decreases |d| - p
  {
    if p == |d| then HeadersOnly(msg)
    else if d[p] < 128 then
      var v := SkipValue(d, TextString(d, p).pos);
      if v.value.None? then HeadersOnly(msg) else DecodeHeaders(d, v.pos, msg)
    else if d[p] == 0x84 then
      var ct := ContentType(d, p + 1);
      if ct.value.None? then BadContentType
      else BodyFrom(msg.(contentType := Some(ct.value.value.0), contentTypeParams := ct.value.value.1), ct.pos)
    else
      var v := Field(msg, d[p], d, p + 1);
      if v.value.None? then HeadersOnly(msg) else DecodeHeaders(d, v.pos, v.value.value)
  }

  /** The headers of one part after its content type. */
  function PartHeaders(d: Bytes, p: nat, part: MmsPart): (r: MmsPart)
    requires p <= |d|
    ensures r.data == part.data && r.contentType == part.contentType && r.params == part.params
    decreases |d| - p
  {
    if p == |d| then part
    else if d[p] == 0xC0 then
      var v := TextString(d, p + 1);
      PartHeaders(d, v.pos, part.(contentId := if v.value.Some? then Some(TrimBrackets(v.value.value)) else None))
    else if d[p] == 0x8E then
      var v := TextString(d, p + 1);
      PartHeaders(d, v.pos, part.(contentLocation := v.value))
    else
      var v := SkipValue(d, if d[p] < 128 then TextString(d, p).pos else p + 1);
      if v.value.None? then part else PartHeaders(d, v.pos, part)
  }

  /** Where one part lies: its header block and its payload. */
  datatype Extent = Extent(headers: nat, data: nat, end: nat)

  function PartExtent(d: Bytes, p: nat): (r: Option<Extent>)
    requires p <= |d|
    ensures r.Some? ==> p < r.value.headers <= r.value.data <= r.value.end <= |d|
  {
    var hl := Uintvar(d, p);
    if hl.value.None? then None
    else
      var dl := Uintvar(d, hl.pos);
      if dl.value.None? || |d| - dl.pos < hl.value.value then None
      else
        var data := dl.pos + hl.value.value;
        if |d| - data < dl.value.value then None else Some(Extent(dl.pos, data, data + dl.value.value))
  }

  function DecodePart(headers: Bytes, data: Bytes): (r: MmsPart)
    ensures r.data == data
  {
    var ct := ContentType(headers, 0);
    var (name, params) := if ct.value.Some? then ct.value.value else (Ascii("application/octet-stream"), []);
    PartHeaders(headers, ct.pos, MmsPart(name, params, None, None, data))
  }

  /** The parts found from `p` on, at most `n`, up to the first that does not fit. */
  function Extents(d: Bytes, p: nat, n: nat): (es: seq<Extent>)
    requires p <= |d|
    ensures |es| <= n && forall e <- es :: e.headers <= e.data <= e.end <= |d|
    decreases |d| - p
  {
    if n == 0 then []
    else
      match PartExtent(d, p)
      case None => []
      case Some(e) => [e] + Extents(d, e.end, n - 1)
  }

  function PartAt(d: Bytes, e: Extent): (r: MmsPart)
    requires e.headers <= e.data <= e.end <= |d|
    ensures r.data == d[e.data..e.end]
  {
    DecodePart(d[e.headers..e.data], d[e.data..e.end])
  }

  function DecodeParts(d: Bytes, p: nat, n: nat): (parts: seq<MmsPart>)
    requires p <= |d|
    ensures |parts| <= n
  {
    var es := Extents(d, p, n);
    seq(|es|, i requires 0 <= i < |es| => assert es[i] in es; PartAt(d, es[i]))
  }

  const MAX_PARTS: nat := 256

  function DecodeMultipart(body: Bytes): seq<MmsPart> {
    var count := Uintvar(body, 0);
    if count.value.None? then []
    else DecodeParts(body, count.pos, if count.value.value < MAX_PARTS then count.value.value else MAX_PARTS)
  }

  function BodyParts(msg: MmsMessage, body: Bytes): seq<MmsPart> {
    var ct := if msg.contentType.Some? then msg.contentType.value else [];
    if IsMultipart(ct) then DecodeMultipart(body)
    else if body != [] then [MmsPart(ct, msg.contentTypeParams, None, None, body)]
    else []
  }

  /** Decoding is total: the one failure is an unreadable content type. */
  function Decode(d: Bytes): Option<MmsMessage> {
    match DecodeHeaders(d, 0, EMPTY_MESSAGE)
    case HeadersOnly(msg) => Some(msg)
    case BadContentType => None
    case BodyFrom(msg, start) => Some(msg.(parts := BodyParts(msg, d[start..])))
  }

  // ------------------------------------------------------ payloads are slices

  function TotalSize(parts: seq<MmsPart>): nat {
    if parts == [] then 0 else TotalSize(parts[..|parts| - 1]) + |parts[|parts| - 1].data|
  }

  /** Payload `i` is the slice of `d` its extent names, and each extent ends before the next payload begins. */
  ghost predicate InOrderSlices(d: Bytes, parts: seq<MmsPart>, es: seq<Extent>) {
    && |es| == |parts|
    && (forall i :: 0 <= i < |parts| ==> es[i].data <= es[i].end <= |d| && parts[i].data == d[es[i].data..es[i].end])
    && (forall i, j :: 0 <= i < j < |parts| ==> es[i].end < es[j].data)
  }

  lemma {:induction false} ExtentsInOrder(d: Bytes, p: nat, n: nat)
    requires p <= |d|
    ensures forall i :: 0 <= i < |Extents(d, p, n)| ==> p < Extents(d, p, n)[i].data
    ensures forall i, j :: 0 <= i < j < |Extents(d, p, n)| ==> Extents(d, p, n)[i].end < Extents(d, p, n)[j].data
    decreases |d| - p
  {
    hide PartExtent;
    if n > 0 && PartExtent(d, p).Some? {
      var e := PartExtent(d, p).value;
      ExtentsInOrder(d, e.end, n - 1);
      var rest := Extents(d, e.end, n - 1);
      assert Extents(d, p, n) == [e] + rest;
      assert forall i :: 0 <= i < |rest| ==> rest[i] in rest && rest[i].data <= rest[i].end;
    }
  }

  lemma {:induction false} SlicesFit(d: Bytes, parts: seq<MmsPart>, es: seq<Extent>)
    requires InOrderSlices(d, parts, es)
    ensures TotalSize(parts) <= if parts == [] then 0 else es[|es| - 1].end
    decreases |parts|
  {
    if parts != [] {
      var k := |parts| - 1;
      SlicesFit(d, parts[..k], es[..k]);
    }
  }

  /** On any bytes: at most 256 parts, disjoint in-order slices of the body, together no larger than it. */
  lemma MultipartIsBounded(body: Bytes) returns (es: seq<Extent>)
    ensures |DecodeMultipart(body)| <= MAX_PARTS
    ensures InOrderSlices(body, DecodeMultipart(body), es)
    ensures TotalSize(DecodeMultipart(body)) <= |body|
  {
    hide Uintvar, Extents, DecodePart;
    var count := Uintvar(body, 0);
    if count.value.None? {
      es := [];
    } else {
      var n := if count.value.value < MAX_PARTS then count.value.value else MAX_PARTS;
      ExtentsInOrder(body, count.pos, n);
      es := Extents(body, count.pos, n);
      assert forall i :: 0 <= i < |es| ==> es[i] in es;
      SlicesFit(body, DecodeMultipart(body), es);
    }
  }

  // ------------------------------------------------------------------ WAP push

  datatype WapPush = WapPush(contentType: Bytes, body: Bytes)

  function ParseWapPush(d: Bytes): (r: Option<WapPush>)
    ensures r.Some? ==> |r.value.body| + 3 <= |d| && r.value.body == d[|d| - |r.value.body|..]
  {
    if |d| <= 3 || (d[1] != 0x06 && d[1] != 0x07) then None
    else
      var len := Uintvar(d, 2);
      if len.value.None? || len.pos + len.value.value > |d| then None
      else
        var end := len.pos + len.value.value;
        var ct := ContentType(d[len.pos..end], 0);
        if ct.value.None? then None else Some(WapPush(ct.value.value.0, d[end..]))
  }

  /**
   A push with its header length, headers and body is parsed exactly when its headers start with a readable
   content type, and then gives that type and the body.
   */
  lemma WapPushReadBack(id: byte, pduType: byte, headers: Bytes, body: Bytes)
    requires (pduType == 0x06 || pduType == 0x07) && |headers| < UINTVAR_LIMIT
    ensures var d := [id, pduType] + UintvarBytes(|headers|) + headers + body;
            ParseWapPush(d) == match ContentType(headers, 0).value
                               case Some(ct) => Some(WapPush(ct.0, body))
                               case None => None
  {
    hide Uintvar, UintvarBytes, ContentType, At;
    var front: Bytes := [id, pduType];
    var n := UintvarBytes(|headers|);
    var d := front + n + headers + body;
    AtWhole(d);
    AtSplit(d, 0, front + n + headers, body);
    AtSplit(d, 0, front + n, headers);
    AtSplit(d, 0, front, n);
    UintvarReadAt(d, 2, |headers|);
    AtMeans(d, 2 + |n|, headers);
    assert d[1] == pduType;
    assert d[2 + |n| + |headers|..] == body;
  }

  // ------------------------------------------------------------------- encode

  predicate IsAsciiSpace(b: byte) {
    9 <= b <= 13 || b == 32
  }

  function TrimLeft(s: Bytes): Bytes {
    if s != [] && IsAsciiSpace(s[0]) then TrimLeft(s[1..]) else s
  }

  function TrimRight(s: Bytes): Bytes {
    if s != [] && IsAsciiSpace(s[|s| - 1]) then TrimRight(s[..|s| - 1]) else s
  }

  function FormatAddress(addr: Bytes): Bytes {
    var a := TrimRight(TrimLeft(addr));
    if 64 in a || Contains(a, Ascii("/TYPE=")) then a else a + Ascii("/TYPE=PLMN")
  }

  datatype SendReq = SendReq(
    transactionId: Bytes,
    from: Option<Bytes>,
    to: seq<Bytes>,
    subject: Option<Bytes>,
    parts: seq<MmsPart>,
    deliveryReport: bool,
    readReport: bool
  )

  function Sender(from: Option<Bytes>): Option<Bytes> {
    if from.Some? then Some(FormatAddress(from.value)) else None
  }

  function Recipients(to: seq<Bytes>): seq<Bytes> {
    seq(|to|, i requires 0 <= i < |to| => FormatAddress(to[i]))
  }

  /** Address present, or the token that asks the MMSC to fill it in. */
  function FromInner(sender: Option<Bytes>): Bytes {
    if sender.Some? then [0x80] + EncodedBytes(sender.value) else [0x81]
  }

  function Flag(b: bool): byte {
    if b then 0x80 else 0x81
  }

  function Bracketed(cid: Bytes): Bytes {
    [60] + cid + [62]
  }

  /** The content type of the whole body: related with a SMIL part first, or mixed. */
  function BodyType(parts: seq<MmsPart>): Bytes {
    if |parts| > 1 then
      [0xB3, 0x89] + TextBytes(Ascii("application/smil")) +
      if parts[0].contentId.Some? then [0x99] + TextBytes(Bracketed(parts[0].contentId.value)) else []
    else [0xA3]
  }

  function TypeBytes(contentType: Bytes): Bytes {
    match ContentTypeCode(contentType)
    case Some(code) => [128 + code]
    case None => TextBytes(contentType)
  }

  function CharsetBytes(contentType: Bytes): Bytes {
    if IsText(contentType) then [0x81] + IntegerBytes(UTF8_MIB) else []
  }

  function NameBytes(name: Option<EncText>): Bytes {
    if name.Some? then [0x97] + TextBytes(name.value.raw) else []
  }

  function PartType(part: MmsPart): Bytes {
    TypeBytes(part.contentType) + CharsetBytes(part.contentType) + NameBytes(Name(part))
  }

  function IdBytes(part: MmsPart): Bytes {
    if part.contentId.Some? then [0xC0] + TextBytes(Bracketed(part.contentId.value)) else []
  }

  function LocationBytes(part: MmsPart): Bytes {
    if part.contentLocation.Some? then [0x8E] + TextBytes(part.contentLocation.value) else []
  }

  function PartHeaderBytes(part: MmsPart): Bytes {
    Counted(PartType(part)) + IdBytes(part) + LocationBytes(part)
  }

  function PartBytes(part: MmsPart): Bytes {
    var headers := PartHeaderBytes(part);
    UintvarBytes(|headers|) + UintvarBytes(|part.data|) + headers + part.data
  }

  function PartsBytes(parts: seq<MmsPart>): Bytes {
    if parts == [] then [] else PartBytes(parts[0]) + PartsBytes(parts[1..])
  }

  function MultipartBytes(parts: seq<MmsPart>): Bytes {
    UintvarBytes(|parts|) + PartsBytes(parts)
  }

  /** The headers of an M-Send.req before its content type. */
  datatype Header =
    | MessageType
    | TransactionId(tid: Bytes)
    | Version
    | From(sender: Option<Bytes>)
    | To(recipient: Bytes)
    | Subject(text: Bytes)
    | Class
    | DeliveryReport(wanted: bool)
    | ReadReport(wanted: bool)

  function HeaderCode(h: Header): byte {
    match h
    case MessageType => 0x8C
    case TransactionId(_) => 0x98
    case Version => 0x8D
    case From(_) => 0x89
    case To(_) => 0x97
    case Subject(_) => 0x96
    case Class => 0x8A
    case DeliveryReport(_) => 0x86
    case ReadReport(_) => 0x90
  }

  function HeaderValue(h: Header): Bytes {
    match h
    case MessageType => [0x80]
    case TransactionId(tid) => TextBytes(tid)
    case Version => [0x92]
    case From(sender) => Counted(FromInner(sender))
    case To(recipient) => EncodedBytes(recipient)
    case Subject(text) => EncodedBytes(text)
    case Class => [0x80]
    case DeliveryReport(wanted) => [Flag(wanted)]
    case ReadReport(wanted) => [Flag(wanted)]
  }

  function HeadersBytes(hs: seq<Header>): Bytes {
    if hs == [] then [] else [HeaderCode(hs[0])] + HeaderValue(hs[0]) + HeadersBytes(hs[1..])
  }

  function RecipientHeaders(recipients: seq<Bytes>): seq<Header> {
    seq(|recipients|, i requires 0 <= i < |recipients| => To(recipients[i]))
  }

  function SubjectHeaders(subject: Option<Bytes>): seq<Header> {
    if subject.Some? && subject.value != [] then [Subject(subject.value)] else []
  }

  /** In the order they are written. */
  function HeadersOf(req: SendReq): seq<Header> {
    [MessageType, TransactionId(req.transactionId), Version, From(Sender(req.from))]
    + RecipientHeaders(Recipients(req.to))
    + SubjectHeaders(req.subject)
    + [Class, DeliveryReport(req.deliveryReport), ReadReport(req.readReport)]
  }

  function BodyBytes(parts: seq<MmsPart>): Bytes {
    [0x84] + Counted(BodyType(parts)) + MultipartBytes(parts)
  }

  function EncodeSendReq(req: SendReq): Bytes {
    HeadersBytes(HeadersOf(req)) + BodyBytes(req.parts)
  }
}
