/**
 The decoder and encoder of src/mms/pdu.rs and src/mms/mod.rs in their own form: loops over a
 cursor that fill a message, and a buffer that grows.  Each is proved against its function in MmsPdu.
 */
module MmsCoder {
  import opened Util
  import opened Wsp
  import opened WspReader
  import opened MmsPdu

  // ------------------------------------------------------------------- decode

  /** One well-known header other than the content type; `more` tells whether the loop goes on. */
  method ReadField(r: Reader, b: byte, msg: MmsMessage) returns (m: MmsMessage, more: bool)
    requires r.Valid()
    modifies r
    ensures r.Valid()
    ensures Read(if more then Some(m) else None, r.pos) == Field(msg, b, r.data, old(r.pos))
    ensures !more ==> m == msg
  {
    hide U8, TextString, EncodedString, MessageClass, OtherField, Block, FromAddress;
    more := true;
    if b == 0x8C {
      var v := r.GetU8();
      m := msg.(messageType := if v.Some? then v.value else 0);
    } else if b == 0x98 {
      var v := r.GetTextString();
      m := msg.(transactionId := v);
    } else if b == 0x8D {
      var v := r.GetU8();
      m := msg.(version := v);
    } else if b == 0x89 {
      var block := ReadBlock(r);
      var from := ReadFromAddress(block);
      m := msg.(from := from);
    } else if b == 0x97 {
      var v := r.GetEncodedString();
      m := if v.Some? then msg.(to := msg.to + [v.value]) else msg;
    } else if b == 0x82 {
      var v := r.GetEncodedString();
      m := if v.Some? then msg.(cc := msg.cc + [v.value]) else msg;
    } else if b == 0x96 {
      var v := r.GetEncodedString();
      m := msg.(subject := v);
    } else if b == 0x8A {
      m := ReadMessageClass(r, msg);
    } else {
      m, more := ReadOtherField(r, b, msg);
    }
  }

  method ReadBlock(r: Reader) returns (block: Bytes)
    requires r.Valid()
    modifies r
    ensures r.Valid() && (block, r.pos) == Block(r.data, old(r.pos))
  {
    var len := r.GetBoundedValueLength();
    var end := r.pos + if len.Some? then len.value else 0;
    block := r.data[r.pos..end];
    r.pos := end;
  }

  method ReadFromAddress(block: Bytes) returns (from: Option<EncText>)
    ensures from == FromAddress(block)
  {
    var inner := new Reader(block);
    var token := inner.GetU8();
    if token == Some(0x80) {
      from := inner.GetEncodedString();
    } else {
      from := None;
    }
  }

  method ReadMessageClass(r: Reader, msg: MmsMessage) returns (m: MmsMessage)
    requires r.Valid()
    modifies r
    ensures r.Valid() && Read(Some(m), r.pos) == MessageClass(msg, r.data, old(r.pos))
  {
    if r.pos < |r.data| && r.data[r.pos] >= 128 {
      var v := r.data[r.pos] - 128;
      r.pos := r.pos + 1;
      m := msg.(messageClass := Some(Ascii(
        match v
        case 0 => "personal"
        case 1 => "advertisement"
        case 2 => "informational"
        case 3 => "auto"
        case _ => "unknown")));
    } else {
      var v := r.GetTextString();
      m := msg.(messageClass := v);
    }
  }

  method ReadOtherField(r: Reader, b: byte, msg: MmsMessage) returns (m: MmsMessage, more: bool)
    requires r.Valid()
    modifies r
    ensures r.Valid()
    ensures Read(if more then Some(m) else None, r.pos) == OtherField(msg, b, r.data, old(r.pos))
    ensures !more ==> m == msg
  {
    hide U8, TextString, EncodedString, LongInt, IntegerValue, SkipValue, Block;
    more := true;
    if b == 0x8B {
      var v := r.GetTextString();
      m := msg.(messageId := v);
    } else if b == 0x83 {
      var v := r.GetTextString();
      m := msg.(contentLocation := v);
    } else if b == 0x85 {
      var v := r.GetLongInt();
      m := msg.(date := v);
    } else if b == 0x8E {
      var v := r.GetIntegerValue();
      m := msg.(messageSize := v);
    } else if b == 0x88 {
      var block := ReadBlock(r);
      var inner := new Reader(block);
      var _ := inner.GetU8();
      var v := inner.GetIntegerValue();
      m := msg.(expiry := v);
    } else if b == 0x92 {
      var v := r.GetU8();
      m := msg.(responseStatus := v);
    } else if b == 0x99 {
      var v := r.GetU8();
      m := msg.(retrieveStatus := v);
    } else if b == 0x93 || b == 0x9A {
      var v := r.GetEncodedString();
      m := msg.(responseText := v);
    } else {
      var v := r.GetSkipValue();
      m, more := msg, v.Some?;
    }
  }

  /** The header loop and the body, on any bytes; `None` is the malformed content type. */
  method DecodeMessage(data: Bytes) returns (result: Option<MmsMessage>)
    ensures result == Decode(data)
  {
    hide Field, SkipValue, ContentType, TextString, BodyParts;
    var r := new Reader(data);
    var msg := EMPTY_MESSAGE;
    while r.pos < |r.data|
      invariant r.Valid() && r.data == data
      invariant DecodeHeaders(data, r.pos, msg) == DecodeHeaders(data, 0, EMPTY_MESSAGE)
      decreases |r.data| - r.pos
    {
      var b := r.data[r.pos];
      if b < 128 {
        var _ := r.GetTextString();
        var v := r.GetSkipValue();
        if v.None? { return Some(msg); }
      } else {
        r.pos := r.pos + 1;
        if b == 0x84 {
          var ct := r.GetContentType();
          if ct.None? { return None; }
          msg := msg.(contentType := Some(ct.value.0), contentTypeParams := ct.value.1);
          var parts := ReadBody(msg, data[r.pos..]);
          return Some(msg.(parts := parts));
        }
        var more;
        msg, more := ReadField(r, b, msg);
        if !more { return Some(msg); }
      }
    }
    return Some(msg);
  }

  method ReadBody(msg: MmsMessage, body: Bytes) returns (parts: seq<MmsPart>)
    ensures parts == BodyParts(msg, body)
  {
    var ct := if msg.contentType.Some? then msg.contentType.value else [];
    if IsMultipart(ct) {
      parts := ReadMultipart(body);
    } else if body != [] {
      parts := [MmsPart(ct, msg.contentTypeParams, None, None, body)];
    } else {
      parts := [];
    }
  }

  method ReadPart(headers: Bytes, data: Bytes) returns (part: MmsPart)
    ensures part == DecodePart(headers, data)
  {
    hide ContentType, TextString, SkipValue, TrimBrackets;
    var hr := new Reader(headers);
    var ct := hr.GetContentType();
    var (name, params) := if ct.Some? then ct.value else (Ascii("application/octet-stream"), []);
    part := MmsPart(name, params, None, None, data);
    while hr.pos < |hr.data|
      invariant hr.Valid() && hr.data == headers
      invariant PartHeaders(headers, hr.pos, part) == DecodePart(headers, data)
      decreases |hr.data| - hr.pos
    {
      var h := hr.data[hr.pos];
      hr.pos := hr.pos + 1;
      if h == 0xC0 {
        var v := hr.GetTextString();
        part := part.(contentId := if v.Some? then Some(TrimBrackets(v.value)) else None);
      } else if h == 0x8E {
        var v := hr.GetTextString();
        part := part.(contentLocation := v);
      } else {
        if h < 128 {
          hr.pos := hr.pos - 1;
          var _ := hr.GetTextString();
        }
        var v := hr.GetSkipValue();
        if v.None? { return; }
      }
    }
  }

  /** Two lengths, then the bytes they announce. */
  method ReadExtent(r: Reader) returns (e: Option<Extent>)
    requires r.Valid()
    modifies r
    ensures r.Valid() && e == PartExtent(r.data, old(r.pos)) && (e.Some? ==> r.pos == e.value.end)
  {
    hide Uintvar;
    var hl := r.GetUintvar();
    if hl.None? { return None; }
    var dl := r.GetUintvar();
    if dl.None? { return None; }
    var headers := r.pos;
    var h := r.GetTake(hl.value);
    if h.None? { return None; }
    var data := r.pos;
    var d := r.GetTake(dl.value);
    if d.None? { return None; }
    return Some(Extent(headers, data, r.pos));
  }

  method ReadMultipart(body: Bytes) returns (parts: seq<MmsPart>)
    ensures parts == DecodeMultipart(body)
  {
    hide Uintvar, PartExtent, DecodePart;
    var r := new Reader(body);
    var count := r.GetUintvar();
    if count.None? { return []; }
    var n := if count.value < MAX_PARTS then count.value else MAX_PARTS;
    ghost var start := r.pos;
    ghost var es: seq<Extent> := [];
    parts := [];
    for i := 0 to n
      invariant r.Valid() && r.data == body && |parts| == |es|
      invariant Extents(body, start, n) == es + Extents(body, r.pos, n - i)
      invariant forall k :: 0 <= k < |es| ==> Fits(body, es[k]) && parts[k] == PartAt(body, es[k])
    {
      ghost var p := r.pos;
      var e := ReadExtent(r);
      if e.None? {
        assert Extents(body, start, n) == es;
        return;
      }
      var part := ReadPart(body[e.value.headers..e.value.data], body[e.value.data..e.value.end]);
      assert Extents(body, p, n - i) == [e.value] + Extents(body, r.pos, n - i - 1);
      assert es + ([e.value] + Extents(body, r.pos, n - i - 1)) == (es + [e.value]) + Extents(body, r.pos, n - i - 1);
      es := es + [e.value];
      parts := parts + [part];
    }
    assert Extents(body, start, n) == es;
  }

  predicate Fits(d: Bytes, e: Extent) {
    e.headers <= e.data <= e.end <= |d|
  }

  method ReadWapPush(data: Bytes) returns (push: Option<WapPush>)
    ensures push == ParseWapPush(data)
  {
    hide Uintvar, ContentType;
    if |data| <= 3 || (data[1] != 0x06 && data[1] != 0x07) { return None; }
    var r := new Reader(data);
    var _ := r.GetU8();
    var _ := r.GetU8();
    var len := r.GetUintvar();
    if len.None? || r.pos + len.value > |data| { return None; }
    var end := r.pos + len.value;
    var hr := new Reader(data[r.pos..end]);
    var ct := hr.GetContentType();
    if ct.None? { return None; }
    return Some(WapPush(ct.value.0, data[end..]));
  }

  // ------------------------------------------------------------------- encode

  /** Lengths are machine words; a vector cannot be longer. */
  const WORD: nat := 0x1_0000_0000_0000_0000

  predicate PartFits(part: MmsPart) {
    |PartBytes(part)| < WORD
  }

  predicate RequestFits(req: SendReq) {
    && (forall i :: 0 <= i < |req.to| ==> |FormatAddress(req.to[i])| + 2 < WORD)
    && (req.from.Some? ==> |FormatAddress(req.from.value)| + 2 < WORD && |FromInner(Sender(req.from))| < WORD)
    && (req.subject.Some? ==> |req.subject.value| + 2 < WORD)
    && |BodyType(req.parts)| < WORD
    && |req.parts| < WORD
    && forall i :: 0 <= i < |req.parts| ==> PartFits(req.parts[i])
  }

  method WriteFrom(out: Bytes, from: Option<Bytes>) returns (r: Bytes)
    requires from.Some? ==> |FormatAddress(from.value)| + 2 < WORD && |FromInner(Sender(from))| < WORD
    ensures r == out + [0x89] + Counted(FromInner(Sender(from)))
  {
    hide FormatAddress, EncodedBytes, Counted;
    var inner: Bytes := [0x81];
    if from.Some? {
      inner := WriteEncodedString([0x80], FormatAddress(from.value));
    }
    assert inner == FromInner(Sender(from));
    r := WriteCounted(out + [0x89], inner);
  }

  method WriteRecipients(out: Bytes, to: seq<Bytes>, ghost hs: seq<Header>) returns (r: Bytes)
    requires forall i :: 0 <= i < |to| ==> |FormatAddress(to[i])| + 2 < WORD
    requires out == HeadersBytes(hs)
    ensures r == HeadersBytes(hs + RecipientHeaders(Recipients(to)))
  {
    hide FormatAddress, EncodedBytes, HeadersBytes;
    ghost var all := RecipientHeaders(Recipients(to));
    r := out;
    assert hs + all[..0] == hs;
    for i := 0 to |to|
      invariant r == HeadersBytes(hs + all[..i])
    {
      r := WriteEncodedString(r + [0x97], FormatAddress(to[i]));
      HeadersSnoc(hs + all[..i], all[i]);
      assert hs + all[..i + 1] == hs + all[..i] + [all[i]];
    }
    assert all[..|to|] == all;
  }

  method WriteBodyType(out: Bytes, parts: seq<MmsPart>) returns (r: Bytes)
    requires |BodyType(parts)| < WORD
    ensures r == out + Counted(BodyType(parts))
  {
    hide TextBytes, ValueLengthBytes, Ascii, Bracketed;
    var ct: Bytes := [];
    if |parts| > 1 {
      ct := [0xB3, 0x89];
      ct := WriteTextString(ct, Ascii("application/smil"));
      if parts[0].contentId.Some? {
        ghost var before := ct;
        ct := WriteTextString(ct + [0x99], Bracketed(parts[0].contentId.value));
        assert ct == before + ([0x99] + TextBytes(Bracketed(parts[0].contentId.value)));
      } else {
        assert ct == ct + [];
      }
    } else {
      ct := [0xA3];
    }
    r := WriteCounted(out, ct);
  }

  method WriteCounted(out: Bytes, inner: Bytes) returns (r: Bytes)
    requires |inner| < WORD
    ensures r == out + Counted(inner)
  {
    hide ValueLengthBytes;
    r := WriteValueLength(out, |inner|);
    r := r + inner;
  }

  method WritePartType(part: MmsPart) returns (ct: Bytes)
    ensures ct == PartType(part)
  {
    hide TextBytes, ContentTypeCode, Name, IsText, IntegerBytes;
    var code := ContentTypeCode(part.contentType);
    if code.Some? {
      ct := [128 + code.value];
    } else {
      ct := WriteTextString([], part.contentType);
    }
    assert ct == TypeBytes(part.contentType);
    if IsText(part.contentType) {
      ct := WriteIntegerValue(ct + [0x81], UTF8_MIB);
    }
    assert ct == TypeBytes(part.contentType) + CharsetBytes(part.contentType);
    var name := Name(part);
    if name.Some? {
      ct := WriteTextString(ct + [0x97], name.value.raw);
    }
  }

  method WritePartHeaders(part: MmsPart) returns (headers: Bytes)
    requires |PartType(part)| < WORD
    ensures headers == PartHeaderBytes(part)
  {
    hide TextBytes, ValueLengthBytes, PartType, Counted, Bracketed;
    var ct := WritePartType(part);
    headers := WriteCounted([], ct);
    assert headers == Counted(PartType(part));
    if part.contentId.Some? {
      headers := WriteTextString(headers + [0xC0], Bracketed(part.contentId.value));
    }
    assert headers == Counted(PartType(part)) + IdBytes(part);
    if part.contentLocation.Some? {
      headers := WriteTextString(headers + [0x8E], part.contentLocation.value);
    }
  }

  method WritePart(out: Bytes, part: MmsPart) returns (r: Bytes)
    requires PartFits(part)
    ensures r == out + PartBytes(part)
  {
    hide UintvarBytes, ValueLengthBytes, PartType;
    var headers := WritePartHeaders(part);
    r := WriteUintvar(out, |headers|);
    r := WriteUintvar(r, |part.data|);
    r := r + headers;
    r := r + part.data;
  }

  method WriteMultipart(out: Bytes, parts: seq<MmsPart>) returns (r: Bytes)
    requires |parts| < WORD && forall i :: 0 <= i < |parts| ==> PartFits(parts[i])
    ensures r == out + MultipartBytes(parts)
  {
    hide UintvarBytes, PartBytes;
    r := WriteUintvar(out, |parts|);
    for i := 0 to |parts|
      invariant r + PartsBytes(parts[i..]) == out + MultipartBytes(parts)
    {
      ghost var before := r;
      r := WritePart(r, parts[i]);
      assert parts[i..][1..] == parts[i + 1..];
      assert before + PartsBytes(parts[i..]) == r + PartsBytes(parts[i + 1..]);
    }
  }

  lemma {:induction false} HeadersAppend(a: seq<Header>, b: seq<Header>)
    ensures HeadersBytes(a + b) == HeadersBytes(a) + HeadersBytes(b)
  {
    hide HeaderValue, HeaderCode;
    if a == [] {
      assert a + b == b;
    } else {
      HeadersAppend(a[1..], b);
      assert (a + b)[1..] == a[1..] + b;
    }
  }

  lemma HeadersSnoc(hs: seq<Header>, h: Header)
    ensures HeadersBytes(hs + [h]) == HeadersBytes(hs) + [HeaderCode(h)] + HeaderValue(h)
  {
    hide HeaderValue, HeaderCode;
    HeadersAppend(hs, [h]);
    assert HeadersBytes([]) == [];
    assert [h][1..] == [];
  }

  /** The headers before the recipients. */
  method WriteLeading(req: SendReq) returns (out: Bytes)
    requires RequestFits(req)
    ensures out == HeadersBytes([MessageType, TransactionId(req.transactionId), Version, From(Sender(req.from))])
  {
    hide TextBytes, Counted, FromInner, Sender, HeadersBytes, FormatAddress, RequestFits;
    assert HeadersBytes([]) == [] by { HeadersNone(); }
    out := [0x8C, 0x80];
    ghost var t, f := TransactionId(req.transactionId), From(Sender(req.from));
    HeadersSnoc([], MessageType);
    assert [] + [MessageType] == [MessageType];
    out := WriteTextString(out + [0x98], req.transactionId);
    HeadersSnoc([MessageType], t);
    out := out + [0x8D] + [0x92];
    HeadersSnoc([MessageType] + [t], Version);
    FromFits(req);
    out := WriteFrom(out, req.from);
    HeadersSnoc([MessageType] + [t] + [Version], f);
    assert [MessageType] + [t] + [Version] + [f] == [MessageType, t, Version, f];
  }

  lemma HeadersNone()
    ensures HeadersBytes([]) == []
  {
  }

  lemma FromFits(req: SendReq)
    requires RequestFits(req)
    ensures req.from.Some? ==> |FormatAddress(req.from.value)| + 2 < WORD && |FromInner(Sender(req.from))| < WORD
  {
  }

  method WriteSubject(out: Bytes, subject: Option<Bytes>, ghost hs: seq<Header>) returns (r: Bytes)
    requires out == HeadersBytes(hs) && (subject.Some? ==> |subject.value| + 2 < WORD)
    ensures r == HeadersBytes(hs + SubjectHeaders(subject))
  {
    hide EncodedBytes, HeadersBytes;
    r := out;
    if subject.Some? && subject.value != [] {
      r := WriteEncodedString(r + [0x96], subject.value);
      HeadersSnoc(hs, Subject(subject.value));
    } else {
      assert hs + [] == hs;
    }
  }

  /** The headers between the subject and the content type. */
  method WriteTrailing(out: Bytes, req: SendReq, ghost hs: seq<Header>) returns (r: Bytes)
    requires out == HeadersBytes(hs)
    ensures r == HeadersBytes(hs + [Class, DeliveryReport(req.deliveryReport), ReadReport(req.readReport)])
  {
    hide HeadersBytes;
    ghost var d, e := DeliveryReport(req.deliveryReport), ReadReport(req.readReport);
    r := out + [0x8A] + [0x80];
    HeadersSnoc(hs, Class);
    r := r + [0x86] + [Flag(req.deliveryReport)];
    HeadersSnoc(hs + [Class], d);
    r := r + [0x90] + [Flag(req.readReport)];
    HeadersSnoc(hs + [Class] + [d], e);
    assert hs + [Class] + [d] + [e] == hs + [Class, d, e];
  }

  /** The whole PDU, written front to back. */
  method WriteSendReq(req: SendReq) returns (out: Bytes)
    requires RequestFits(req)
    ensures out == EncodeSendReq(req)
  {
    hide HeadersBytes, Sender, RecipientHeaders, Recipients, SubjectHeaders, BodyType, MultipartBytes, Counted, FormatAddress, PartFits;
    out := WriteLeading(req);
    ghost var hs := [MessageType, TransactionId(req.transactionId), Version, From(Sender(req.from))];
    out := WriteRecipients(out, req.to, hs);
    hs := hs + RecipientHeaders(Recipients(req.to));
    out := WriteSubject(out, req.subject, hs);
    hs := hs + SubjectHeaders(req.subject);
    out := WriteTrailing(out, req, hs);
    assert out == HeadersBytes(HeadersOf(req));
    out := WriteBodyType(out + [0x84], req.parts);
    out := WriteMultipart(out, req.parts);
  }
}
