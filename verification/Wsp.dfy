/**
 WSP primitives (src/mms/wsp.rs): a cursor over bytes that came from the network, and the
 writers it has to invert.  Text is its UTF-8 bytes; text in another character set is kept
 undecoded next to the name of that set.
 */
module Wsp {
  import opened Util
  import Text

  type byte = x: int | 0 <= x < 256

  type Bytes = seq<byte>

  /** ASCII bytes of a literal. */
  function Ascii(s: string): (b: Bytes)
    ensures |b| == |s|
  {
    seq(|s|, i requires 0 <= i < |s| => if s[i] as int < 128 then s[i] as int else 63)
  }

  datatype Charset = Utf8 | Windows1252 | Utf16be | Utf16le | EucKr | ShiftJis | EucJp | Big5 | Gbk | Gb18030

  function CharsetFor(mib: nat): Charset {
    if mib == 3 || mib == 4 then Windows1252
    else if mib == 1000 || mib == 1015 || mib == 1013 then Utf16be
    else if mib == 1014 then Utf16le
    else if mib == 36 || mib == 38 then EucKr
    else if mib == 17 || mib == 2024 then ShiftJis
    else if mib == 18 then EucJp
    else if mib == 2026 then Big5
    else if mib == 57 || mib == 113 || mib == 2025 then Gbk
    else if mib == 2085 then Gb18030
    else Utf8
  }

  function CharsetName(c: Charset): string {
    match c
    case Utf8 => "UTF-8"
    case Windows1252 => "windows-1252"
    case Utf16be => "UTF-16BE"
    case Utf16le => "UTF-16LE"
    case EucKr => "EUC-KR"
    case ShiftJis => "Shift_JIS"
    case EucJp => "EUC-JP"
    case Big5 => "Big5"
    case Gbk => "GBK"
    case Gb18030 => "gb18030"
  }

  /** `as u32`. */
  function AsU32(n: nat): nat {
    if n < 0x1_0000_0000 then n else n % 0x1_0000_0000
  }

  /** Text as it arrived. */
  datatype EncText = EncText(charset: Charset, raw: Bytes)

  function Plain(b: Bytes): EncText {
    EncText(Utf8, b)
  }

  type Params = seq<(Bytes, EncText)>

  // -------------------------------------------------------------- code tables

  /** Codes 0x00 to 0x37 in order; 0x3E follows. */
  const CONTENT_TYPES: seq<string> := [
    "*/*", "text/*", "text/html", "text/plain", "text/x-hdml", "text/x-ttml", "text/x-vCalendar", "text/x-vCard",
    "text/vnd.wap.wml", "text/vnd.wap.wmlscript", "text/vnd.wap.wta-event", "multipart/*", "multipart/mixed",
    "multipart/form-data", "multipart/byteranges", "multipart/alternative", "application/*", "application/java-vm",
    "application/x-www-form-urlencoded", "application/x-hdmlc", "application/vnd.wap.wmlc",
    "application/vnd.wap.wmlscriptc", "application/vnd.wap.wta-eventc", "application/vnd.wap.uaprof",
    "application/vnd.wap.wtls-ca-certificate", "application/vnd.wap.wtls-user-certificate",
    "application/x-x509-ca-cert", "application/x-x509-user-cert", "image/*", "image/gif", "image/jpeg", "image/tiff",
    "image/png", "image/vnd.wap.wbmp", "application/vnd.wap.multipart.*", "application/vnd.wap.multipart.mixed",
    "application/vnd.wap.multipart.form-data", "application/vnd.wap.multipart.byteranges",
    "application/vnd.wap.multipart.alternative", "application/xml", "text/xml", "application/vnd.wap.wbxml",
    "application/x-x968-cross-cert", "application/x-x968-ca-cert", "application/x-x968-user-cert", "text/vnd.wap.si",
    "application/vnd.wap.sic", "text/vnd.wap.sl", "application/vnd.wap.slc", "text/vnd.wap.co",
    "application/vnd.wap.coc", "application/vnd.wap.multipart.related", "application/vnd.wap.sia",
    "text/vnd.wap.connectivity-xml", "application/vnd.wap.connectivity-wbxml", "application/pkcs7-mime"]

  const MMS_MESSAGE: string := "application/vnd.wap.mms-message"

  /** The `k`-th row of the content-type table. */
  function RowName(k: nat): string {
    if k < |CONTENT_TYPES| then CONTENT_TYPES[k] else MMS_MESSAGE
  }

  function RowCode(k: nat): nat {
    if k < |CONTENT_TYPES| then k else 0x3E
  }

  function ContentTypeName(code: nat): Bytes {
    if code < |CONTENT_TYPES| then Ascii(CONTENT_TYPES[code])
    else if code == 0x3E then Ascii(MMS_MESSAGE)
    else Ascii("application/octet-stream")
  }

  function LowerByte(b: byte): byte {
    if 65 <= b <= 90 then b + 32 else b
  }

  function LowerBytes(s: Bytes): (r: Bytes)
    ensures |r| == |s|
  {
    seq(|s|, i requires 0 <= i < |s| => LowerByte(s[i]))
  }

  predicate EqIgnoreCase(a: Bytes, b: Bytes) {
    LowerBytes(a) == LowerBytes(b)
  }

  /** First row from `k` on whose name matches, ignoring ASCII case. */
  function CodeFrom(name: Bytes, k: nat): (r: Option<nat>)
    requires k <= |CONTENT_TYPES| + 1
    ensures r.Some? ==> r.value < 0x80 && EqIgnoreCase(ContentTypeName(r.value), name)
    ensures r.Some? <==> exists i :: k <= i <= |CONTENT_TYPES| && EqIgnoreCase(Ascii(RowName(i)), name)
    decreases |CONTENT_TYPES| + 1 - k
  {
    hide EqIgnoreCase, Ascii;
    assert |CONTENT_TYPES| == 0x38;
    if k == |CONTENT_TYPES| + 1 then None
    else if EqIgnoreCase(Ascii(RowName(k)), name) then Some(RowCode(k))
    else CodeFrom(name, k + 1)
  }

  /** Found exactly for the names of the table, in any case, and then the code of that name. */
  function ContentTypeCode(name: Bytes): (r: Option<nat>)
    ensures r.Some? ==> r.value < 0x80 && EqIgnoreCase(ContentTypeName(r.value), name)
    ensures r.Some? <==> exists i :: 0 <= i <= |CONTENT_TYPES| && EqIgnoreCase(Ascii(RowName(i)), name)
  {
    CodeFrom(name, 0)
  }

  function ParamName(code: nat): string {
    if code == 0x00 then "q" else if code == 0x01 then "charset" else if code == 0x02 then "level"
    else if code == 0x03 || code == 0x09 then "type" else if code == 0x05 || code == 0x17 then "name"
    else if code == 0x06 || code == 0x18 then "filename" else if code == 0x07 then "differences"
    else if code == 0x08 then "padding" else if code == 0x0A || code == 0x19 then "start"
    else if code == 0x0B || code == 0x1A then "start-info" else if code == 0x0C || code == 0x1B then "comment"
    else if code == 0x0D || code == 0x1C then "domain" else if code == 0x0E then "max-age"
    else if code == 0x0F || code == 0x1D then "path" else if code == 0x10 then "secure" else if code == 0x11 then "sec"
    else if code == 0x12 then "mac" else if code == 0x13 then "creation-date" else if code == 0x14 then "modification-date"
    else if code == 0x15 then "read-date" else if code == 0x16 then "size" else "x-unknown"
  }

  // ------------------------------------------------------------------ reading

  /** What a read returned and where it left the cursor; a failed read may move it too. */
  datatype Read<+T> = Read(value: Option<T>, pos: nat)

  /** The cursor only moves forward and never leaves the buffer. */
  predicate Within(d: Bytes, p: nat, q: nat) {
    p <= q <= |d|
  }

  function U8(d: Bytes, p: nat): (r: Read<byte>)
    requires p <= |d|
    ensures Within(d, p, r.pos) && (r.value.Some? <==> r.pos == p + 1)
  {
    if p < |d| then Read(Some(d[p]), p + 1) else Read(None, p)
  }

  function Take(d: Bytes, p: nat, n: nat): (r: Read<Bytes>)
    requires p <= |d|
    ensures Within(d, p, r.pos)
    ensures r.value.Some? <==> p + n <= |d|
    ensures if r.value.Some? then r.pos == p + n && r.value.value == d[p..p + n] else r.pos == p
  {
    if |d| - p < n then Read(None, p) else Read(Some(d[p..p + n]), p + n)
  }

  /** At most `k` more groups of seven bits. */
  function UintvarFrom(d: Bytes, p: nat, acc: nat, k: nat): (r: Read<nat>)
    requires p <= |d|
    ensures Within(d, p, r.pos) && (r.value.Some? ==> p < r.pos)
    decreases |d| - p
  {
    if k == 0 || p == |d| then Read(None, p)
    else
      if d[p] < 128 then Read(Some(acc * 128 + d[p]), p + 1)
      else UintvarFrom(d, p + 1, acc * 128 + (d[p] - 128), k - 1)
  }

  function Uintvar(d: Bytes, p: nat): (r: Read<nat>)
    requires p <= |d|
    ensures Within(d, p, r.pos) && (r.value.Some? ==> p < r.pos)
  {
    UintvarFrom(d, p, 0, 8)
  }

  /** Index of the first NUL at or after `p`, or the length. */
  function NulAt(d: Bytes, p: nat): (i: nat)
    requires p <= |d|
    ensures p <= i <= |d|
    decreases |d| - p
  {
    if p == |d| || d[p] == 0 then p else NulAt(d, p + 1)
  }

  function TextString(d: Bytes, p: nat): (r: Read<Bytes>)
    requires p <= |d|
    ensures Within(d, p, r.pos) && (p < |d| ==> p < r.pos)
  {
    var start := if p < |d| && d[p] == 0x7F then p + 1 else p;
    var end := NulAt(d, start);
    if end < |d| then Read(Some(d[start..end]), end + 1)
    else if start < |d| then Read(Some(d[start..]), |d|)
    else Read(None, start)
  }

  function ValueLength(d: Bytes, p: nat): (r: Read<nat>)
    requires p <= |d|
    ensures Within(d, p, r.pos) && (r.value.Some? ==> p < r.pos)
  {
    if p == |d| then Read(None, p)
    else if d[p] <= 30 then Read(Some(d[p]), p + 1)
    else if d[p] == 0x1F then Uintvar(d, p + 1)
    else Read(None, p)
  }

  function BoundedValueLength(d: Bytes, p: nat): (r: Read<nat>)
    requires p <= |d|
    ensures Within(d, p, r.pos)
    ensures r.value.Some? ==> p < r.pos && r.pos + r.value.value <= |d|
  {
    var r := ValueLength(d, p);
    if r.value.None? then r
    else Read(Some(if r.value.value < |d| - r.pos then r.value.value else |d| - r.pos), r.pos)
  }

  /** A counted block, as an inner buffer; an unreadable count makes it empty. */
  function Block(d: Bytes, p: nat): (r: (Bytes, nat))
    requires p <= |d|
    ensures Within(d, p, r.1)
  {
    var len := BoundedValueLength(d, p);
    var n := if len.value.Some? then len.value.value else 0;
    (d[len.pos..len.pos + n], len.pos + n)
  }

  function BigEndian(b: Bytes): nat {
    if b == [] then 0 else BigEndian(b[..|b| - 1]) * 256 + b[|b| - 1]
  }

  function LongInt(d: Bytes, p: nat): (r: Read<nat>)
    requires p <= |d|
    ensures Within(d, p, r.pos) && (p < |d| ==> p < r.pos)
  {
    if p == |d| then Read(None, p)
    else if d[p] == 0 || d[p] > 8 then Read(None, p + 1)
    else
      var t := Take(d, p + 1, d[p]);
      if t.value.None? then Read(None, t.pos) else Read(Some(BigEndian(t.value.value)), t.pos)
  }

  function IntegerValue(d: Bytes, p: nat): (r: Read<nat>)
    requires p <= |d|
    ensures Within(d, p, r.pos) && (p < |d| ==> p < r.pos)
  {
    if p == |d| then Read(None, p)
    else if d[p] >= 128 then Read(Some(d[p] - 128), p + 1)
    else LongInt(d, p)
  }

  /** Drop the terminator of a counted string, if it is there. */
  function CutTerminator(c: Charset, raw: Bytes): Bytes {
    var k := |raw|;
    if c.Utf16be? || c.Utf16le? then
      if k >= 2 && raw[k - 1] == 0 && raw[k - 2] == 0 then raw[..k - 2] else raw
    else if k >= 1 && raw[k - 1] == 0 then raw[..k - 1] else raw
  }

  /** The counted form of an encoded string: optional charset, then text. */
  function CountedText(inner: Bytes): EncText {
    var mib := IntegerValue(inner, 0);
    var c := CharsetFor(if mib.value.Some? then AsU32(mib.value.value) else 106);
    EncText(c, CutTerminator(c, inner[mib.pos..]))
  }

  function EncodedString(d: Bytes, p: nat): (r: Read<EncText>)
    requires p <= |d|
    ensures Within(d, p, r.pos) && (r.value.Some? ==> p < r.pos)
  {
    if p == |d| then Read(None, p)
    else if d[p] >= 0x20 then
      var t := TextString(d, p);
      Read(if t.value.Some? then Some(Plain(t.value.value)) else None, t.pos)
    else
      var len := BoundedValueLength(d, p);
      if len.value.None? then Read(None, len.pos)
      else
        var end := len.pos + len.value.value;
        Read(Some(CountedText(d[len.pos..end])), end)
  }

  function TextOr(r: Read<EncText>): EncText {
    if r.value.Some? then r.value.value else Plain([])
  }

  function NumberText(r: Read<nat>): EncText {
    if r.value.Some? then Plain(Ascii(Text.Decimal(r.value.value))) else Plain([])
  }

  /** The value of a well-known parameter; its type depends on the code. */
  function ParamValue(code: nat, d: Bytes, p: nat): (r: Read<EncText>)
    requires p <= |d|
    ensures Within(d, p, r.pos) && r.value.Some?
  {
    if code == 0x10 then Read(Some(Plain([])), p)
    else if code == 0x00 then var n := Uintvar(d, p); Read(Some(NumberText(n)), n.pos)
    else if code == 0x02 || code == 0x0E || code == 0x16 then var n := IntegerValue(d, p); Read(Some(NumberText(n)), n.pos)
    else if code == 0x01 then
      if p < |d| && (d[p] >= 128 || d[p] < 0x20) then
        var n := IntegerValue(d, p);
        Read(Some(if n.value.Some? then Plain(Ascii(CharsetName(CharsetFor(AsU32(n.value.value))))) else Plain([])), n.pos)
      else
        var t := TextString(d, p);
        Read(Some(Plain(if t.value.Some? then t.value.value else [])), t.pos)
    else
      var e := EncodedString(d, p);
      Read(Some(TextOr(e)), e.pos)
  }

  function Parameter(d: Bytes, p: nat): (r: Read<(Bytes, EncText)>)
    requires p <= |d|
    ensures Within(d, p, r.pos) && (p < |d| ==> p < r.pos)
  {
    if p == |d| then Read(None, p)
    else if d[p] >= 128 then
      var v := ParamValue(d[p] - 128, d, p + 1);
      Read(Some((Ascii(ParamName(d[p] - 128)), v.value.value)), v.pos)
    else
      var name := TextString(d, p);
      if name.value.None? then Read(None, name.pos)
      else
        var v := EncodedString(d, name.pos);
        Read(Some((name.value.value, TextOr(v))), v.pos)
  }

  /** Parameters up to the end of the buffer or the first that cannot be read. */
  function ParameterList(d: Bytes, p: nat): Params
    requires p <= |d|
    decreases |d| - p
  {
    if p == |d| then []
    else
      var r := Parameter(d, p);
      if r.value.None? then [] else [r.value.value] + ParameterList(d, r.pos)
  }

  lemma ParameterListStep(d: Bytes, p: nat)
    requires p <= |d|
    ensures p < |d| && Parameter(d, p).value.Some? ==>
              ParameterList(d, p) == [Parameter(d, p).value.value] + ParameterList(d, Parameter(d, p).pos)
    ensures p == |d| || Parameter(d, p).value.None? ==> ParameterList(d, p) == []
  {
    hide Parameter;
  }

  /** The media type of a counted content type and where its parameters start. */
  function InnerType(inner: Bytes): (r: Read<Bytes>)
    ensures r.pos <= |inner|
  {
    if inner == [] then Read(None, 0) else BareType(inner, 0)
  }

  /** Media type and parameters of a counted content type. */
  function CountedType(inner: Bytes): Option<(Bytes, Params)> {
    var name := InnerType(inner);
    if name.value.None? then None else Some((name.value.value, ParameterList(inner, name.pos)))
  }

  /** A well-known code or a text, without parameters. */
  function BareType(d: Bytes, p: nat): (r: Read<Bytes>)
    requires p < |d|
    ensures p < r.pos <= |d|
  {
    if d[p] >= 128 then Read(Some(ContentTypeName(d[p] - 128)), p + 1) else TextString(d, p)
  }

  function ContentType(d: Bytes, p: nat): (r: Read<(Bytes, Params)>)
    requires p <= |d|
    ensures Within(d, p, r.pos) && (r.value.Some? ==> p < r.pos)
  {
    if p == |d| then Read(None, p)
    else if d[p] >= 0x20 then
      var t := BareType(d, p);
      Read(if t.value.Some? then Some((t.value.value, [])) else None, t.pos)
    else
      var len := BoundedValueLength(d, p);
      if len.value.None? then Read(None, len.pos)
      else
        var end := len.pos + len.value.value;
        Read(CountedType(d[len.pos..end]), end)
  }

  /** Skip a value of unknown type; `Some` means a value was there. */
  function SkipValue(d: Bytes, p: nat): (r: Read<()>)
    requires p <= |d|
    ensures Within(d, p, r.pos) && (r.value.Some? ==> p < r.pos)
  {
    if p == |d| then Read(None, p)
    else if d[p] <= 0x1F then
      var len := BoundedValueLength(d, p);
      if len.value.None? then Read(None, len.pos) else Read(Some(()), len.pos + len.value.value)
    else if d[p] >= 128 then Read(Some(()), p + 1)
    else
      var t := TextString(d, p);
      Read(if t.value.Some? then Some(()) else None, t.pos)
  }

  // ------------------------------------------------------------------ writing

  function UintvarHigh(v: nat): Bytes {
    if v == 0 then [] else UintvarHigh(v / 128) + [128 + v % 128]
  }

  function UintvarBytes(v: nat): (b: Bytes)
    ensures b != []
  {
    UintvarHigh(v / 128) + [v % 128]
  }

  function TextBytes(t: Bytes): Bytes {
    (if t != [] && t[0] >= 128 then [0x7F] else []) + t + [0]
  }

  function ValueLengthBytes(n: nat): (b: Bytes)
    ensures b != []
  {
    if n <= 30 then [n] else [0x1F] + UintvarBytes(n)
  }

  predicate IsAscii(t: Bytes) {
    forall i :: 0 <= i < |t| ==> t[i] < 128
  }

  function Counted(inner: Bytes): Bytes {
    ValueLengthBytes(|inner|) + inner
  }

  const UTF8_MIB: nat := 106

  function BigEndianBytes(v: nat): Bytes {
    if v == 0 then [] else BigEndianBytes(v / 256) + [v % 256]
  }

  function LongIntBytes(v: nat): Bytes
    requires v < 0x1_0000_0000_0000_0000
  {
    var b := BigEndianBytes(v);
    var bytes := if b == [] then [0] else b;
    BigEndianLength(v, 8);
    [|bytes|] + bytes
  }

  function IntegerBytes(v: nat): Bytes
    requires v < 0x1_0000_0000_0000_0000
  {
    if v <= 127 then [128 + v] else LongIntBytes(v)
  }

  /** Charset, text, terminator. */
  function Utf8Inner(t: Bytes): (r: Bytes)
    ensures |r| == |t| + 2
  {
    IntegerBytes(UTF8_MIB) + t + [0]
  }

  function EncodedBytes(t: Bytes): Bytes {
    if IsAscii(t) then TextBytes(t) else Counted(Utf8Inner(t))
  }

  // -------------------------------------------------------- powers and lengths

  function Pow(b: nat, k: nat): (r: nat)
    ensures b > 0 ==> r > 0
  {
    if k == 0 then 1 else b * Pow(b, k - 1)
  }

  lemma {:induction false} BigEndianLength(v: nat, k: nat)
    requires v < Pow(256, k)
    ensures |BigEndianBytes(v)| <= k
  {
    if v > 0 {
      assert v / 256 < Pow(256, k - 1);
      BigEndianLength(v / 256, k - 1);
    }
  }

  /** `v` takes at most `k` groups of seven bits exactly when it is below 128^k. */
  lemma {:induction false} UintvarHighLength(v: nat, k: nat)
    ensures |UintvarHigh(v)| <= k <==> v < Pow(128, k)
    decreases k
  {
    if k > 0 && v > 0 {
      UintvarHighLength(v / 128, k - 1);
      assert v / 128 < Pow(128, k - 1) <==> v < 128 * Pow(128, k - 1);
    }
  }

  /** One more than the largest value eight groups of seven bits can hold. */
  const UINTVAR_LIMIT: nat := 0x100_0000_0000_0000

  // -------------------------------------------------------------- round trips

  /** The buffer holds `e` at position `p`. */
  predicate At(d: Bytes, p: nat, e: Bytes) {
    p + |e| <= |d| && d[p..p + |e|] == e
  }

  /** What `At` says, for proofs that keep its definition hidden. */
  lemma AtMeans(d: Bytes, p: nat, e: Bytes)
    requires At(d, p, e)
    ensures p + |e| <= |d| && d[p..p + |e|] == e
  {
  }

  lemma AtFirst(d: Bytes, p: nat, e: Bytes)
    requires At(d, p, e) && e != []
    ensures d[p] == e[0]
  {
    assert d[p..p + |e|][0] == d[p];
  }

  lemma AtSplit(d: Bytes, p: nat, a: Bytes, b: Bytes)
    requires At(d, p, a + b)
    ensures At(d, p, a) && At(d, p + |a|, b)
  {
    var s := d[p..p + |a| + |b|];
    assert d[p..p + |a|] == s[..|a|] && (a + b)[..|a|] == a;
    assert d[p + |a|..p + |a| + |b|] == s[|a|..] && (a + b)[|a|..] == b;
  }

  lemma AtWhole(d: Bytes)
    ensures At(d, 0, d)
  {
  }

  lemma {:induction false} UintvarHighRead(d: Bytes, p: nat, v: nat, k: nat)
    requires At(d, p, UintvarHigh(v)) && p + |UintvarHigh(v)| <= |d|
    ensures var n := |UintvarHigh(v)|;
            UintvarFrom(d, p, 0, n + k) == UintvarFrom(d, p + n, v, k)
    decreases v
  {
    if v > 0 {
      var hi := UintvarHigh(v / 128);
      AtSplit(d, p, hi, [128 + v % 128]);
      AtFirst(d, p + |hi|, [128 + v % 128]);
      UintvarHighRead(d, p, v / 128, k + 1);
    }
  }

  lemma LastGroup(d: Bytes, p: nat, v: nat, k: nat)
    requires p < |d| && d[p] == v % 128 && k > 0
    ensures UintvarFrom(d, p, v / 128, k) == Read(Some(v), p + 1)
  {
  }

  lemma GroupsFit(v: nat)
    ensures |UintvarHigh(v / 128)| <= 7 <==> v < UINTVAR_LIMIT
  {
    UintvarHighLength(v / 128, 7);
    assert Pow(128, 7) == 0x2_0000_0000_0000;
  }

  lemma UintvarReadAt(d: Bytes, p: nat, v: nat)
    requires At(d, p, UintvarBytes(v)) && v < UINTVAR_LIMIT
    ensures Uintvar(d, p) == Read(Some(v), p + |UintvarBytes(v)|)
  {
    var hi := UintvarHigh(v / 128);
    GroupsFit(v);
    AtSplit(d, p, hi, [v % 128]);
    AtFirst(d, p + |hi|, [v % 128]);
    var k := 8 - |hi|;
    UintvarHighRead(d, p, v / 128, k);
    LastGroup(d, p + |hi|, v, k);
  }

  /** A uintvar survives the wire exactly when it fits in eight groups of seven bits. */
  lemma UintvarRoundTrip(v: nat)
    ensures Uintvar(UintvarBytes(v), 0).value == Some(v) <==> v < UINTVAR_LIMIT
  {
    var d := UintvarBytes(v);
    AtWhole(d);
    if v < UINTVAR_LIMIT {
      UintvarReadAt(d, 0, v);
    } else {
      var hi := UintvarHigh(v / 128);
      GroupsFit(v);
      UintvarTooLong(hi, d, 0, 8);
    }
  }

  lemma {:induction false} HighBits(v: nat)
    ensures forall b <- UintvarHigh(v) :: b >= 128
  {
    if v > 0 {
      HighBits(v / 128);
    }
  }

  lemma UintvarTooLong(hi: Bytes, d: Bytes, p: nat, k: nat)
    requires exists v: nat :: hi == UintvarHigh(v)
    requires |hi| <= |d| && d[..|hi|] == hi && p + k <= |hi|
    ensures forall acc: nat :: UintvarFrom(d, p, acc, k).value.None?
    decreases k
  {
    if k > 0 {
      var v: nat :| hi == UintvarHigh(v);
      HighBits(v);
      assert d[p] == hi[p] && hi[p] in hi;
      UintvarTooLong(hi, d, p + 1, k - 1);
    }
  }

  lemma {:induction false} BigEndianRoundTrip(v: nat)
    ensures BigEndian(BigEndianBytes(v)) == v
  {
    if v > 0 {
      BigEndianRoundTrip(v / 256);
      var b := BigEndianBytes(v);
      assert b[..|b| - 1] == BigEndianBytes(v / 256);
    }
  }

  /** Integers survive in their short or long form. */
  lemma IntegerReadAt(d: Bytes, p: nat, v: nat)
    requires v < 0x1_0000_0000_0000_0000 && At(d, p, IntegerBytes(v))
    ensures IntegerValue(d, p) == Read(Some(v), p + |IntegerBytes(v)|)
  {
    AtFirst(d, p, IntegerBytes(v));
    if v > 127 {
      var b := BigEndianBytes(v);
      BigEndianLength(v, 8);
      BigEndianRoundTrip(v);
      AtSplit(d, p, [|b|], b);
    }
  }

  /** Text that a reader takes back unchanged: no NUL, and no quote byte in front. */
  predicate TextSafe(t: Bytes) {
    NoNul(t) && (t != [] ==> t[0] != 0x7F)
  }

  predicate NoNul(t: Bytes) {
    forall i :: 0 <= i < |t| ==> t[i] != 0
  }

  lemma {:induction false} TextBodyReadAt(d: Bytes, p: nat, t: Bytes)
    requires NoNul(t) && At(d, p, t + [0])
    ensures p + |t| < |d| && NulAt(d, p) == p + |t|
    decreases |t|
  {
    AtFirst(d, p, t + [0]);
    if t != [] {
      assert t[0] != 0 && t + [0] == [t[0]] + (t[1..] + [0]);
      AtSplit(d, p, [t[0]], t[1..] + [0]);
      TextBodyReadAt(d, p + 1, t[1..]);
    }
  }

  lemma TextReadAt(d: Bytes, p: nat, t: Bytes)
    requires TextSafe(t) && At(d, p, TextBytes(t))
    ensures TextString(d, p) == Read(Some(t), p + |TextBytes(t)|)
  {
    hide NoNul;
    var q: Bytes := if t != [] && t[0] >= 128 then [0x7F] else [];
    assert q + (t + [0]) == TextBytes(t);
    AtSplit(d, p, q, t + [0]);
    AtSplit(d, p + |q|, t, [0]);
    AtFirst(d, p, TextBytes(t));
    TextBodyReadAt(d, p + |q|, t);
  }

  /** ... and that an encoded-string reader does not mistake for a count either. */
  predicate EncodedSafe(t: Bytes) {
    IsAscii(t) ==> TextSafe(t) && (t != [] ==> t[0] >= 0x20)
  }

  lemma ValueLengthReadAt(d: Bytes, p: nat, n: nat)
    requires n < UINTVAR_LIMIT && At(d, p, ValueLengthBytes(n))
    ensures ValueLength(d, p) == Read(Some(n), p + |ValueLengthBytes(n)|)
  {
    AtFirst(d, p, ValueLengthBytes(n));
    if n > 30 {
      AtSplit(d, p, [0x1F], UintvarBytes(n));
      UintvarReadAt(d, p + 1, n);
    }
  }

  lemma CountIsMarked(n: nat)
    ensures ValueLengthBytes(n)[0] <= 0x1F
  {
  }

  /** A counted block is found again: its length, and its bytes as the inner buffer. */
  lemma CountedReadAt(d: Bytes, p: nat, inner: Bytes)
    requires |inner| < UINTVAR_LIMIT && At(d, p, Counted(inner))
    ensures p < |d|
    ensures var r := BoundedValueLength(d, p);
            && d[p] <= 0x1F
            && r == Read(Some(|inner|), p + |ValueLengthBytes(|inner|)|)
            && r.pos + |inner| == p + |Counted(inner)| && d[r.pos..r.pos + |inner|] == inner
  {
    hide ValueLength, ValueLengthBytes;
    var v := ValueLengthBytes(|inner|);
    CountIsMarked(|inner|);
    AtSplit(d, p, v, inner);
    AtFirst(d, p, v);
    ValueLengthReadAt(d, p, |inner|);
    assert BoundedValueLength(d, p) == Read(Some(|inner|), p + |v|);
  }

  lemma BlockReadAt(d: Bytes, p: nat, inner: Bytes)
    requires |inner| < UINTVAR_LIMIT && At(d, p, Counted(inner))
    ensures p <= |d| && Block(d, p) == (inner, p + |Counted(inner)|)
  {
    hide BoundedValueLength;
    CountedReadAt(d, p, inner);
  }

  lemma CountedTextRead(t: Bytes)
    ensures CountedText(Utf8Inner(t)) == Plain(t)
  {
    var inner := Utf8Inner(t);
    assert inner == [234] + t + [0];
    assert IntegerValue(inner, 0) == Read(Some(106), 1);
    assert inner[1..] == t + [0];
    assert CutTerminator(Utf8, t + [0]) == t;
  }

  lemma NonAsciiReadAt(d: Bytes, p: nat, t: Bytes)
    requires !IsAscii(t) && |t| + 2 < UINTVAR_LIMIT && At(d, p, EncodedBytes(t))
    ensures EncodedString(d, p) == Read(Some(Plain(t)), p + |EncodedBytes(t)|)
  {
    hide BoundedValueLength, CountedText, Utf8Inner, TextString, TextBytes, IsAscii, At, Counted;
    CountedReadAt(d, p, Utf8Inner(t));
    CountedTextRead(t);
  }

  /** A quoted or plain text written by `write_text_string` also reads back as an encoded string. */
  lemma TextAsEncodedReadAt(d: Bytes, p: nat, t: Bytes)
    requires TextSafe(t) && (t != [] ==> t[0] >= 0x20) && At(d, p, TextBytes(t))
    ensures EncodedString(d, p) == Read(Some(Plain(t)), p + |TextBytes(t)|)
  {
    AtFirst(d, p, TextBytes(t));
    if t == [] {
      assert d[p] == 0;
      assert CountedText(d[p + 1..p + 1]) == Plain([]);
    } else {
      TextReadAt(d, p, t);
    }
  }

  lemma EncodedReadAt(d: Bytes, p: nat, t: Bytes)
    requires EncodedSafe(t) && |t| + 2 < UINTVAR_LIMIT && At(d, p, EncodedBytes(t))
    ensures EncodedString(d, p) == Read(Some(Plain(t)), p + |EncodedBytes(t)|)
  {
    hide EncodedString, At, TextBytes, IsAscii, Counted;
    if IsAscii(t) {
      TextAsEncodedReadAt(d, p, t);
    } else {
      NonAsciiReadAt(d, p, t);
    }
  }
}
