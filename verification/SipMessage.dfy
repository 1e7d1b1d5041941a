/**
 SIP messages on the wire (src/sip/message.rs).  The head is text; a body byte is the character
 with that code, so a datagram is one string and lengths count bytes of the body.
 */
module SipMessage {
  import opened Util
  import opened Text
  import U = SipUri

  datatype Header = Header(name: string, value: string)

  datatype Method =
    | Invite | Ack | Bye | Cancel | Register | Options | Info | MessageMethod | Notify | Subscribe | Update | Prack | Refer

  datatype Message =
    | Request(verb: Method, uri: U.Uri, headers: seq<Header>, body: string)
    | Response(code: nat, reason: string, headers: seq<Header>, body: string)

  function MethodText(m: Method): string {
    match m
    case Invite => "INVITE"
    case Ack => "ACK"
    case Bye => "BYE"
    case Cancel => "CANCEL"
    case Register => "REGISTER"
    case Options => "OPTIONS"
    case Info => "INFO"
    case MessageMethod => "MESSAGE"
    case Notify => "NOTIFY"
    case Subscribe => "SUBSCRIBE"
    case Update => "UPDATE"
    case Prack => "PRACK"
    case Refer => "REFER"
  }

  const METHODS: seq<Method> :=
    [Invite, Ack, Bye, Cancel, Register, Options, Info, MessageMethod, Notify, Subscribe, Update, Prack, Refer]

  function Upper(s: string): (r: string)
    ensures |r| == |s| && forall i :: 0 <= i < |s| ==> r[i] == UpperChar(s[i])
  {
    seq(|s|, i requires 0 <= i < |s| => UpperChar(s[i]))
  }

  function MethodFrom(upper: string, k: nat): Option<Method>
    requires k <= |METHODS|
    decreases |METHODS| - k
  {
    if k == |METHODS| then None
    else if MethodText(METHODS[k]) == upper then Some(METHODS[k])
    else MethodFrom(upper, k + 1)
  }

  function ParseMethod(s: string): Option<Method> {
    MethodFrom(Upper(s), 0)
  }

  // -------------------------------------------------------------------- names

  /** Full name of a compact form, which is one letter; any other name as it is. */
  function Full(lower: string): string {
    if |lower| != 1 then lower
    else
      match lower[0]
      case 'i' => "call-id"
      case 'm' => "contact"
      case 'f' => "from"
      case 't' => "to"
      case 'v' => "via"
      case 'c' => "content-type"
      case 'l' => "content-length"
      case 's' => "subject"
      case 'k' => "supported"
      case 'e' => "content-encoding"
      case 'o' => "event"
      case 'r' => "refer-to"
      case 'x' => "session-expires"
      case _ => lower
  }

  function Canonical(name: string): string {
    Full(Lower(Trim(name)))
  }

  /** Capital after each hyphen and at the front. */
  function Titled(s: string, upper: bool): (r: string)
    ensures |r| == |s| && forall i :: 0 <= i < |s| ==> r[i] == s[i] || r[i] == UpperChar(s[i])
  {
    if s == [] then [] else [if upper then UpperChar(s[0]) else s[0]] + Titled(s[1..], s[0] == '-')
  }

  function PrettyOf(canon: string): string {
    if canon == "call-id" then "Call-ID"
    else if canon == "cseq" then "CSeq"
    else if canon == "www-authenticate" then "WWW-Authenticate"
    else if canon == "mime-version" then "MIME-Version"
    else Titled(canon, true)
  }

  function Pretty(name: string): string {
    PrettyOf(Canonical(name))
  }

  // ------------------------------------------------------------------ parsing

  predicate Here(s: string, i: nat, needle: string) {
    i + |needle| <= |s| && s[i..i + |needle|] == needle
  }

  /** First occurrence at or after `i`. */
  function FindFrom(s: string, needle: string, i: nat): (r: Option<nat>)
    ensures r.Some? ==> i <= r.value && Here(s, r.value, needle) && forall j :: i <= j < r.value ==> !Here(s, j, needle)
    ensures r.None? ==> forall j :: i <= j ==> !Here(s, j, needle)
    decreases |s| - i
  {
    if i + |needle| > |s| then None
    else if Here(s, i, needle) then Some(i)
    else FindFrom(s, needle, i + 1)
  }

  const CRLF: string := "\r\n"

  const BLANK: string := "\r\n\r\n"

  /** The pieces between line breaks. */
  function Lines(s: string): (r: seq<string>)
    ensures r != []
    decreases |s|
  {
    match FindFrom(s, CRLF, 0)
    case None => [s]
    case Some(i) => [s[..i]] + Lines(s[i + 2..])
  }

  /** End of the head and start of the body; either kind of blank line, or none. */
  function FindBody(wire: string): (r: (nat, nat))
    ensures r.0 <= r.1 <= |wire|
  {
    match FindFrom(wire, BLANK, 0)
    case Some(i) => (i, i + 4)
    case None =>
      match FindFrom(wire, "\n\n", 0)
      case Some(i) => (i, i + 2)
      case None => (|wire|, |wire|)
  }

  predicate IsFold(line: string) {
    line != [] && (line[0] == ' ' || line[0] == '\t')
  }

  /** Lines after the first, each on its own unless it continues the one before. */
  function UnfoldRest(lines: seq<string>): string {
    if lines == [] then []
    else (if IsFold(lines[0]) then " " + TrimStart(lines[0]) else CRLF + lines[0]) + UnfoldRest(lines[1..])
  }

  function Unfold(head: string): string {
    var lines := Split(Join(Lines(head), '\n'), '\n');
    lines[0] + UnfoldRest(lines[1..])
  }

  /** Nothing for a line without colon. */
  function HeaderLine(line: string): seq<Header> {
    match SplitOnce(line, ':')
    case Some((name, value)) => [Header(Canonical(name), Trim(value))]
    case None => []
  }

  function NonEmpty(lines: seq<string>): seq<string> {
    if lines == [] then [] else (if lines[0] == "" then [] else [lines[0]]) + NonEmpty(lines[1..])
  }

  function Get(hs: seq<Header>, name: string): Option<string> {
    Find(hs, Canonical(name))
  }

  function Find(hs: seq<Header>, canon: string): Option<string> {
    if hs == [] then None else if hs[0].name == canon then Some(hs[0].value) else Find(hs[1..], canon)
  }

  const USIZE_MAX: nat := 0xFFFF_FFFF_FFFF_FFFF

  /** The body cut to its announced length; an unreadable or too large length cuts nothing. */
  function CutBody(length: Option<string>, body: string): string {
    match length
    case None => body
    case Some(v) =>
      match ParseUnsigned(Trim(v), USIZE_MAX)
      case Some(n) => if n <= |body| then body[..n] else body
      case None => body
  }

  /** Next word and what follows it. */
  function NextWord(s: string): Option<(string, string)> {
    var t := TrimStart(s);
    if t == "" then None else Some((t[..WordEnd(t)], t[WordEnd(t)..]))
  }

  function WordEnd(s: string): (i: nat)
    ensures i <= |s|
  {
    if s == [] || IsSpace(s[0]) then 0 else 1 + WordEnd(s[1..])
  }

  function ParseRequestLine(line: string): Option<(Method, U.Uri)> {
    match NextWord(line)
    case None => None
    case Some((verb, rest)) =>
      match ParseMethod(verb)
      case None => None
      case Some(m) =>
        match NextWord(rest)
        case None => None
        case Some((target, _)) =>
          match U.Parse(target)
          case None => None
          case Some(uri) => Some((m, uri))
  }

  function ParseStatusLine(line: string): Option<(nat, string)> {
    match SplitOnce(line, ' ')
    case None => None
    case Some((_, rest)) =>
      var (code, reason) := U.Cut(rest, ' ');
      match ParseUnsigned(code, 65535)
      case None => None
      case Some(n) => Some((n, if reason.Some? then reason.value else ""))
  }

  /** The message made of a start line, headers and the bytes after the head. */
  function Assemble(start: string, headers: seq<Header>, rest: string): Option<Message> {
    var body := CutBody(Get(headers, LengthKey()), rest);
    if StartsWith(start, "SIP/") then
      match ParseStatusLine(start)
      case Some((code, reason)) => Some(Response(code, reason, headers, body))
      case None => None
    else
      match ParseRequestLine(start)
      case Some((m, uri)) => Some(Request(m, uri, headers, body))
      case None => None
  }

  function ParseHead(head: string): seq<string> {
    NonEmpty(Lines(Unfold(head)))
  }

  function ParseMessage(wire: string): Option<Message> {
    var (end, start) := FindBody(wire);
    var lines := ParseHead(wire[..end]);
    if lines == [] then None else Assemble(lines[0], FlatMap(lines[1..], HeaderLine), wire[start..])
  }

  // ----------------------------------------------------------------- printing

  /** `char::is_control`: the C0 and C1 controls and DEL. */
  predicate IsControl(c: char) {
    c as int < 0x20 || 0x7F <= c as int <= 0x9F
  }

  /** A C0 control or DEL, which is one byte on the wire. */
  predicate IsLow(c: char) {
    c as int < 0x20 || c as int == 0x7F
  }

  predicate HasLow(s: string) {
    exists i :: 0 <= i < |s| && IsLow(s[i])
  }

  function WithoutControls(s: string): (r: string)
    ensures |r| <= |s|
  {
    if s == [] then [] else (if IsControl(s[0]) then [] else [s[0]]) + WithoutControls(s[1..])
  }

  function HeaderSafe(s: string): string {
    if HasLow(s) then WithoutControls(s) else s
  }

  function LengthKey(): string {
    "content-length"
  }

  function LengthField(): string {
    "Content-Length"
  }

  function LengthLine(body: string): string {
    LengthField() + ": " + Decimal(|body|)
  }

  function LineOf(h: Header, body: string): string {
    if h.name == LengthKey() then LengthLine(body) else Pretty(h.name) + ": " + HeaderSafe(h.value)
  }

  predicate HasLength(hs: seq<Header>) {
    exists i :: 0 <= i < |hs| && hs[i].name == LengthKey()
  }

  function HeaderLines(hs: seq<Header>, body: string): (r: seq<string>)
    ensures |r| == |hs| && forall i :: 0 <= i < |hs| ==> r[i] == LineOf(hs[i], body)
  {
    seq(|hs|, i requires 0 <= i < |hs| => LineOf(hs[i], body))
  }

  /** Every line of the head. */
  function HeadLines(start: string, hs: seq<Header>, body: string): seq<string> {
    [HeaderSafe(start)] + HeaderLines(hs, body) + if HasLength(hs) then [] else [LengthLine(body)]
  }

  function Ended(lines: seq<string>): string {
    if lines == [] then [] else lines[0] + CRLF + Ended(lines[1..])
  }

  function Serialize(start: string, hs: seq<Header>, body: string): string {
    Ended(HeadLines(start, hs, body)) + CRLF + body
  }

  function Encode(m: Message): string {
    match m
    case Request(verb, uri, hs, body) => Serialize(MethodText(verb) + " " + U.Print(uri) + " SIP/2.0", hs, body)
    case Response(code, reason, hs, body) => Serialize("SIP/2.0 " + Decimal(code) + " " + reason, hs, body)
  }

  // ------------------------------------------------------------ safe values

  lemma {:induction false} WithoutControlsClean(s: string)
    ensures forall i :: 0 <= i < |WithoutControls(s)| ==> !IsControl(WithoutControls(s)[i])
    ensures |WithoutControls(s)| == |s| <==> forall i :: 0 <= i < |s| ==> !IsControl(s[i])
    ensures |WithoutControls(s)| == |s| ==> WithoutControls(s) == s
  {
    if s != [] {
      WithoutControlsClean(s[1..]);
      assert s == [s[0]] + s[1..];
      assert (forall i :: 0 <= i < |s| ==> !IsControl(s[i])) ==> forall i :: 0 <= i < |s[1..]| ==> !IsControl(s[1..][i]);
    }
  }

  /** No value can end its own line: what is written holds no C0 control and no DEL. */
  lemma HeaderSafeNoBreak(s: string)
    ensures forall i :: 0 <= i < |HeaderSafe(s)| ==> !IsLow(HeaderSafe(s)[i])
  {
    WithoutControlsClean(s);
  }

  /** Every control character is dropped, except that a value whose only controls are C1 is left alone. */
  lemma HeaderSafeDropsControls(s: string)
    ensures HeaderSafe(s) == WithoutControls(s) <==> HasLow(s) || forall i :: 0 <= i < |s| ==> !IsControl(s[i])
  {
    WithoutControlsClean(s);
  }

  /** Such a value exists. */
  lemma C1OnlyIsKept()
    ensures HeaderSafe([0x81 as char]) == [0x81 as char] && WithoutControls([0x81 as char]) == []
  {
    assert !HasLow([0x81 as char]);
    assert [0x81 as char][1..] == [];
  }

  lemma {:induction false} WithoutControlsAppend(a: string, b: string)
    requires forall i :: 0 <= i < |a| ==> !IsControl(a[i])
    ensures WithoutControls(a + b) == a + WithoutControls(b)
  {
    if a == [] {
      assert a + b == b;
    } else {
      WithoutControlsAppend(a[1..], b);
      assert (a + b)[1..] == a[1..] + b;
    }
  }

  lemma HeaderSafeAppend(a: string, b: string)
    requires forall i :: 0 <= i < |a| ==> !IsControl(a[i])
    ensures HeaderSafe(a + b) == a + HeaderSafe(b)
  {
    WithoutControlsAppend(a, b);
    if HasLow(b) {
      var i :| 0 <= i < |b| && IsLow(b[i]);
      assert (a + b)[|a| + i] == b[i];
    } else {
      assert forall i :: 0 <= i < |a + b| ==> !IsLow((a + b)[i]);
    }
  }

  // -------------------------------------------------------------------- names

  /** A name as the parser stores it, in visible ASCII without colon. */
  predicate NameOk(name: string) {
    && name != ""
    && (forall i :: 0 <= i < |name| ==> '!' <= name[i] <= '~' && name[i] != ':')
    && Canonical(name) == name
  }

  lemma FullOfFull(s: string)
    ensures Full(Full(s)) == Full(s)
  {
  }

  predicate Plain(s: string) {
    forall i :: 0 <= i < |s| ==> s[i] == '-' || 'a' <= s[i] <= 'z'
  }

  lemma ShortNamesPlain()
    ensures Plain("call-id") && Plain("contact") && Plain("from") && Plain("to") && Plain("via") && Plain("event")
  {
  }

  lemma MediumNamesPlain()
    ensures Plain("content-type") && Plain("subject") && Plain("supported") && Plain("refer-to")
  {
  }

  lemma LongNamesPlain()
    ensures Plain("content-length") && Plain("content-encoding") && Plain("session-expires")
  {
  }

  lemma FullIsPlain(s: string)
    requires Full(s) != s
    ensures Plain(Full(s))
  {
    hide Plain;
    ShortNamesPlain();
    MediumNamesPlain();
    LongNamesPlain();
  }

  lemma FullIsLower(s: string)
    requires Full(s) != s
    ensures IsLower(Full(s)) && Trimmed(Full(s))
  {
    hide Full;
    FullIsPlain(s);
  }

  lemma FullKeepsForm(s: string)
    requires Trimmed(s) && Lower(s) == s
    ensures Trimmed(Full(s)) && Lower(Full(s)) == Full(s)
  {
    hide Full, Lower, IsLower, Trimmed;
    if Full(s) != s {
      FullIsLower(s);
      LowerOfLower(Full(s));
    }
  }

  lemma LowerTwice(s: string)
    ensures Lower(Lower(s)) == Lower(s)
  {
    assert forall i :: 0 <= i < |s| ==> Lower(Lower(s))[i] == Lower(s)[i];
  }

  /** Names are compared after one normalisation, and a second changes nothing. */
  lemma CanonicalIdempotent(name: string)
    ensures Canonical(Canonical(name)) == Canonical(name)
  {
    hide Full, Trim;
    var t := Trim(name);
    U.TrimIsTrimmed(name);
    LowerTwice(t);
    assert Trimmed(Lower(t));
    FullKeepsForm(Lower(t));
    TrimTrimmed(Canonical(name));
    FullOfFull(Lower(t));
  }

  lemma PrettySameLetters(canon: string)
    ensures |PrettyOf(canon)| == |canon|
    ensures forall i :: 0 <= i < |canon| ==> PrettyOf(canon)[i] == canon[i] || PrettyOf(canon)[i] == UpperChar(canon[i])
  {
  }

  lemma PrettyVisible(name: string)
    requires NameOk(name)
    ensures var p := Pretty(name);
            p != "" && Lower(p) == Lower(name) && forall i :: 0 <= i < |p| ==> '!' <= p[i] <= '~' && p[i] != ':'
  {
    hide Canonical, PrettyOf;
    var p := Pretty(name);
    PrettySameLetters(name);
    assert forall i :: 0 <= i < |p| ==> LowerChar(p[i]) == LowerChar(name[i]);
    assert Lower(p) == Lower(name);
  }

  lemma TrimVisible(s: string)
    requires forall i :: 0 <= i < |s| ==> '!' <= s[i] <= '~'
    ensures Trim(s) == s
  {
    assert Trimmed(s);
    TrimTrimmed(s);
  }

  /** The capitals the printer adds are taken off again. */
  lemma PrettyReadBack(name: string)
    requires NameOk(name)
    ensures Canonical(Pretty(name)) == name
  {
    hide Full, Trim, Pretty;
    PrettyVisible(name);
    TrimVisible(Pretty(name));
    TrimVisible(name);
  }

  // ------------------------------------------------------------- one header line

  /** The header a receiver sees for `h`. */
  function Seen(h: Header, body: string): Header {
    Header(h.name, if h.name == LengthKey() then Decimal(|body|) else Trim(HeaderSafe(h.value)))
  }

  lemma TrimSpaceFirst(s: string)
    ensures Trim(" " + s) == Trim(s)
  {
    assert (" " + s)[1..] == s;
  }

  /** A line of the head other than the first: it is one line, not a continuation, not empty. */
  predicate LineOk(line: string) {
    line != "" && !IsFold(line) && '\r' !in line && '\n' !in line
  }

  lemma DecimalTrimmed(n: nat)
    ensures Trim(Decimal(n)) == Decimal(n)
  {
    hide Trim, Decimal;
    var s := Decimal(n);
    assert IsDigit(s[0]) && IsDigit(s[|s| - 1]);
    TrimTrimmed(s);
  }

  lemma LengthFieldOk()
    ensures Canonical(LengthField()) == LengthKey() && LengthField() != ""
    ensures forall i :: 0 <= i < |LengthField()| ==> '!' <= LengthField()[i] <= '~' && LengthField()[i] != ':'
  {
    LengthFieldVisible();
    hide Trim;
    TrimVisible(LengthField());
    LengthFieldLower();
  }

  lemma LengthFieldVisible()
    ensures LengthField() != ""
    ensures forall i :: 0 <= i < |LengthField()| ==> '!' <= LengthField()[i] <= '~' && LengthField()[i] != ':'
  {
  }

  lemma LengthFieldLower()
    ensures Lower(LengthField()) == LengthKey()
  {
  }

  /** A visible name, a colon and a value without line break make one line that is read back. */
  lemma NamedLine(p: string, v: string)
    requires p != "" && (forall i :: 0 <= i < |p| ==> '!' <= p[i] <= '~' && p[i] != ':')
    requires forall i :: 0 <= i < |v| ==> !IsLow(v[i])
    ensures HeaderLine(p + ": " + v) == [Header(Canonical(p), Trim(v))] && LineOk(p + ": " + v)
  {
    hide Trim, Canonical, SplitOnce;
    var line := p + [':'] + (" " + v);
    assert p + ": " + v == line;
    assert line[0] == p[0];
    SplitOnceAt(p, ':', " " + v);
    TrimSpaceFirst(v);
  }

  lemma DigitsNotLow(n: nat)
    ensures forall i :: 0 <= i < |Decimal(n)| ==> !IsLow(Decimal(n)[i])
  {
    hide Decimal;
    var s := Decimal(n);
    assert forall i :: 0 <= i < |s| ==> IsDigit(s[i]);
  }

  lemma LengthLineReadBack(body: string)
    ensures HeaderLine(LengthLine(body)) == [Header(LengthKey(), Decimal(|body|))] && LineOk(LengthLine(body))
  {
    hide Trim, Decimal, Canonical, HeaderLine, LineOk, LengthField;
    DigitsNotLow(|body|);
    LengthFieldOk();
    NamedLine(LengthField(), Decimal(|body|));
    DecimalTrimmed(|body|);
  }

  lemma LineReadBack(h: Header, body: string)
    requires NameOk(h.name)
    ensures HeaderLine(LineOf(h, body)) == [Seen(h, body)] && LineOk(LineOf(h, body))
  {
    hide Trim, Decimal, Canonical, Pretty, HeaderSafe, LengthLine, HeaderLine, LineOk;
    if h.name == LengthKey() {
      LengthLineReadBack(body);
    } else {
      PrettyVisible(h.name);
      PrettyReadBack(h.name);
      HeaderSafeNoBreak(h.value);
      NamedLine(Pretty(h.name), HeaderSafe(h.value));
    }
  }

  // -------------------------------------------------------------------- framing

  function CrlfJoin(lines: seq<string>): string
    requires lines != []
  {
    if |lines| == 1 then lines[0] else lines[0] + CRLF + CrlfJoin(lines[1..])
  }

  lemma {:induction false} EndedIsJoin(lines: seq<string>)
    requires lines != []
    ensures Ended(lines) == CrlfJoin(lines) + CRLF
  {
    if |lines| > 1 {
      EndedIsJoin(lines[1..]);
      assert lines[0] + CRLF + (CrlfJoin(lines[1..]) + CRLF) == lines[0] + CRLF + CrlfJoin(lines[1..]) + CRLF;
    } else {
      assert lines[1..] == [];
      assert Ended([]) == [];
    }
  }

  lemma HereAt(s: string, j: nat, needle: string, k: nat)
    requires Here(s, j, needle) && k < |needle|
    ensures s[j + k] == needle[k]
  {
    assert s[j..j + |needle|][k] == s[j + k];
  }

  lemma FirstLine(p: string, rest: string)
    requires '\r' !in p
    ensures FindFrom(p + CRLF + rest, CRLF, 0) == Some(|p|)
  {
    hide FindFrom;
    var s := p + CRLF + rest;
    assert Here(s, |p|, CRLF);
    forall j: nat | Here(s, j, CRLF)
      ensures |p| <= j
    {
      HereAt(s, j, CRLF, 0);
    }
  }

  lemma OnlyLine(p: string)
    requires '\r' !in p
    ensures FindFrom(p, CRLF, 0) == None
  {
    hide FindFrom;
    forall j: nat | j + 2 <= |p|
      ensures !Here(p, j, CRLF)
    {
      assert p[j..j + 2][0] == p[j] && p[j] in p;
    }
  }

  lemma {:induction false} LinesJoin(lines: seq<string>)
    requires lines != [] && forall i :: 0 <= i < |lines| ==> '\r' !in lines[i]
    ensures Lines(CrlfJoin(lines)) == lines
    decreases |lines|
  {
    hide FindFrom;
    var s, p := CrlfJoin(lines), lines[0];
    if |lines| > 1 {
      var rest := CrlfJoin(lines[1..]);
      LinesJoin(lines[1..]);
      FirstLine(p, rest);
      assert s[..|p|] == p && s[|p| + 2..] == rest;
    } else {
      OnlyLine(p);
    }
  }

  /** After a carriage return of the head comes a line feed and then a character of the next line. */
  predicate NoBlank(head: string) {
    forall i :: 0 <= i < |head| && head[i] == '\r' ==> i + 2 < |head| && head[i + 2] != '\r'
  }

  lemma {:induction false} JoinNoBlank(lines: seq<string>)
    requires lines != [] && forall i :: 0 <= i < |lines| ==> lines[i] != "" && '\r' !in lines[i]
    ensures NoBlank(CrlfJoin(lines)) && CrlfJoin(lines) != "" && CrlfJoin(lines)[0] != '\r'
    decreases |lines|
  {
    var s, p := CrlfJoin(lines), lines[0];
    assert forall j :: 0 <= j < |p| ==> s[j] == p[j] && s[j] in p;
    if |lines| > 1 {
      JoinNoBlank(lines[1..]);
      var rest := CrlfJoin(lines[1..]);
      assert s == p + CRLF + rest;
      assert forall j :: |p| + 2 <= j < |s| ==> s[j] == rest[j - |p| - 2];
    }
  }

  /** The first blank line of the datagram is the one that ends the head. */
  lemma BlankFound(head: string, body: string)
    requires NoBlank(head)
    ensures FindBody(head + BLANK + body) == (|head|, |head| + 4)
  {
    hide FindFrom;
    var s := head + BLANK + body;
    assert Here(s, |head|, BLANK);
    forall j: nat | Here(s, j, BLANK)
      ensures |head| <= j
    {
      HereAt(s, j, BLANK, 0);
      HereAt(s, j, BLANK, 2);
    }
  }

  lemma {:induction false} UnfoldNone(lines: seq<string>)
    requires forall i :: 0 <= i < |lines| ==> LineOk(lines[i])
    ensures forall p: string :: p + UnfoldRest(lines) == CrlfJoin([p] + lines)
  {
    forall p: string
      ensures p + UnfoldRest(lines) == CrlfJoin([p] + lines)
    {
      if lines != [] {
        UnfoldNone(lines[1..]);
        assert ([p] + lines)[1..] == lines && lines == [lines[0]] + lines[1..];
        assert p + (CRLF + lines[0] + UnfoldRest(lines[1..])) == p + CRLF + (lines[0] + UnfoldRest(lines[1..]));
      }
    }
  }

  /** A head whose lines are clean is its own unfolding. */
  lemma UnfoldJoin(start: string, lines: seq<string>)
    requires '\r' !in start && '\n' !in start && forall i :: 0 <= i < |lines| ==> LineOk(lines[i])
    ensures Unfold(CrlfJoin([start] + lines)) == CrlfJoin([start] + lines)
  {
    hide Lines, Split, Join, UnfoldRest, CrlfJoin, IsFold;
    var all := [start] + lines;
    LinesJoin(all);
    SplitJoin(all, '\n');
    UnfoldNone(lines);
    assert all[1..] == lines;
  }

  lemma {:induction false} NonEmptyAll(lines: seq<string>)
    requires forall i :: 0 <= i < |lines| ==> lines[i] != ""
    ensures NonEmpty(lines) == lines
  {
    if lines != [] {
      NonEmptyAll(lines[1..]);
    }
  }

  lemma SplitFrame(head: string, body: string)
    requires NoBlank(head)
    ensures var wire := head + BLANK + body; var (end, start) := FindBody(wire); wire[..end] == head && wire[start..] == body
  {
    hide FindBody, NoBlank;
    BlankFound(head, body);
  }

  lemma HeadReadBack(start: string, lines: seq<string>)
    requires start != "" && '\r' !in start && '\n' !in start && forall i :: 0 <= i < |lines| ==> LineOk(lines[i])
    ensures ParseHead(CrlfJoin([start] + lines)) == [start] + lines && NoBlank(CrlfJoin([start] + lines))
  {
    hide Lines, Unfold, NonEmpty, CrlfJoin, IsFold, NoBlank;
    var all := [start] + lines;
    JoinNoBlank(all);
    UnfoldJoin(start, lines);
    LinesJoin(all);
    NonEmptyAll(all);
  }

  lemma WireOf(lines: seq<string>, body: string)
    requires lines != []
    ensures Ended(lines) + CRLF + body == CrlfJoin(lines) + BLANK + body
  {
    hide CrlfJoin, Ended;
    EndedIsJoin(lines);
    assert CRLF + CRLF == BLANK;
    assert CrlfJoin(lines) + CRLF + CRLF == CrlfJoin(lines) + (CRLF + CRLF);
  }

  lemma ParseFrame(head: string, body: string, start: string, lines: seq<string>)
    requires NoBlank(head) && ParseHead(head) == [start] + lines
    ensures ParseMessage(head + BLANK + body) == Assemble(start, FlatMap(lines, HeaderLine), body)
  {
    hide ParseHead, FindBody, Assemble, FlatMap, NoBlank, HeaderLine;
    SplitFrame(head, body);
    assert ParseHead(head)[1..] == lines;
  }

  /** Clean lines, a blank line and any body are told apart again. */
  lemma FrameReadBack(start: string, lines: seq<string>, body: string)
    requires start != "" && '\r' !in start && '\n' !in start && forall i :: 0 <= i < |lines| ==> LineOk(lines[i])
    ensures ParseMessage(Ended([start] + lines) + CRLF + body) == Assemble(start, FlatMap(lines, HeaderLine), body)
  {
    hide ParseMessage, ParseHead, CrlfJoin, Assemble, FlatMap, LineOk, NoBlank, Ended, HeaderLine;
    WireOf([start] + lines, body);
    HeadReadBack(start, lines);
    ParseFrame(CrlfJoin([start] + lines), body, start, lines);
  }

  // ------------------------------------------------------------- the main theorem

  /** What a receiver sees: same names in the same order, values made safe and trimmed, the length filled in. */
  function Framed(hs: seq<Header>, body: string): seq<Header> {
    seq(|hs|, i requires 0 <= i < |hs| => Seen(hs[i], body))
    + if HasLength(hs) then [] else [Header(LengthKey(), Decimal(|body|))]
  }

  /** The lines after the first are read back as the framed headers. */
  lemma HeadersReadBack(hs: seq<Header>, body: string)
    requires forall i :: 0 <= i < |hs| ==> NameOk(hs[i].name)
    ensures var lines := HeaderLines(hs, body) + if HasLength(hs) then [] else [LengthLine(body)];
            && FlatMap(lines, HeaderLine) == Framed(hs, body)
            && forall i :: 0 <= i < |lines| ==> LineOk(lines[i])
  {
    hide NameOk, LineOf, HeaderLine, LengthLine, LineOk, FlatMap, Seen, HasLength;
    var all := if HasLength(hs) then hs else hs + [Header(LengthKey(), "")];
    var lines := HeaderLines(hs, body) + if HasLength(hs) then [] else [LengthLine(body)];
    var framed := Framed(hs, body);
    LengthLineReadBack(body);
    forall i | 0 <= i < |lines|
      ensures LineOk(lines[i]) && HeaderLine(lines[i]) == [framed[i]]
    {
      if i < |hs| {
        LineReadBack(hs[i], body);
      }
    }
    FlatMapOnes(lines, HeaderLine, framed);
  }

  lemma {:induction false} FlatMapOnes<T>(ps: seq<string>, f: string -> seq<T>, ts: seq<T>)
    requires |ps| == |ts| && forall i :: 0 <= i < |ps| ==> f(ps[i]) == [ts[i]]
    ensures FlatMap(ps, f) == ts
  {
    if ps != [] {
      FlatMapOnes(ps[1..], f, ts[1..]);
    }
  }

  /** Whichever header of that name comes first, they all have the same value. */
  lemma {:induction false} FindAgreed(hs: seq<Header>, name: string, value: string)
    requires exists i :: 0 <= i < |hs| && hs[i].name == name
    requires forall i :: 0 <= i < |hs| && hs[i].name == name ==> hs[i].value == value
    ensures Find(hs, name) == Some(value)
  {
    if hs[0].name != name {
      var i :| 0 <= i < |hs| && hs[i].name == name;
      assert hs[1..][i - 1] == hs[i];
      FindAgreed(hs[1..], name, value);
    }
  }

  lemma FramedHasLength(hs: seq<Header>, body: string)
    ensures var framed := Framed(hs, body);
            && (exists i :: 0 <= i < |framed| && framed[i].name == LengthKey())
            && (forall i :: 0 <= i < |framed| && framed[i].name == LengthKey() ==> framed[i].value == Decimal(|body|))
  {
    hide Decimal, Trim, HeaderSafe, LengthKey;
    var framed := Framed(hs, body);
    if HasLength(hs) {
      var i :| 0 <= i < |hs| && hs[i].name == LengthKey();
      assert framed[i].name == LengthKey();
    } else {
      assert framed[|hs|].name == LengthKey();
    }
  }

  lemma FramedLength(hs: seq<Header>, body: string)
    ensures Get(Framed(hs, body), LengthKey()) == Some(Decimal(|body|))
  {
    hide Decimal, Framed, Find, Canonical, LengthKey;
    FramedHasLength(hs, body);
    FindAgreed(Framed(hs, body), LengthKey(), Decimal(|body|));
    LengthIsCanonical();
  }

  lemma LengthIsCanonical()
    ensures Canonical(LengthKey()) == LengthKey()
  {
    hide Canonical;
    LengthFieldOk();
    CanonicalIdempotent(LengthField());
  }

  lemma BodyKept(body: string)
    requires |body| <= USIZE_MAX
    ensures CutBody(Some(Decimal(|body|)), body) == body
  {
    hide Decimal, ParseUnsigned, Trim;
    DecimalTrimmed(|body|);
    ParseDecimal(|body|, USIZE_MAX);
  }

  /** Any start line that stays one line: the message is its parse, with the framed headers and the same body. */
  lemma SerializedReadBack(start: string, hs: seq<Header>, body: string)
    requires HeaderSafe(start) != "" && |body| <= USIZE_MAX
    requires forall i :: 0 <= i < |hs| ==> NameOk(hs[i].name)
    ensures ParseMessage(Serialize(start, hs, body)) == Assemble(HeaderSafe(start), Framed(hs, body), body)
  {
    hide HeaderSafe, HeaderLines, Framed, Ended, ParseMessage, Assemble, FlatMap, LineOk, NameOk, HeaderLine;
    var lines := HeaderLines(hs, body) + if HasLength(hs) then [] else [LengthLine(body)];
    HeadersReadBack(hs, body);
    HeaderSafeNoBreak(start);
    FrameReadBack(HeaderSafe(start), lines, body);
    assert HeadLines(start, hs, body) == [HeaderSafe(start)] + lines;
  }

  lemma FramedBody(hs: seq<Header>, body: string)
    requires |body| <= USIZE_MAX
    ensures CutBody(Get(Framed(hs, body), LengthKey()), body) == body
  {
    hide CutBody, Get, Framed, LengthKey;
    FramedLength(hs, body);
    BodyKept(body);
  }

  // -------------------------------------------------------------- start lines

  lemma MethodShape(m: Method)
    ensures MethodText(m) != "" && forall i :: 0 <= i < |MethodText(m)| ==> 'A' <= MethodText(m)[i] <= 'Z'
    ensures MethodText(m)[0] == 'S' ==> m == Subscribe
  {
  }

  lemma MethodTextInjective(a: Method, b: Method)
    requires |MethodText(a)| == |MethodText(b)| && MethodText(a)[0] == MethodText(b)[0]
    ensures a == b
  {
  }

  function MethodIndex(m: Method): (k: nat)
    ensures k < |METHODS| && METHODS[k] == m
  {
    match m
    case Invite => 0
    case Ack => 1
    case Bye => 2
    case Cancel => 3
    case Register => 4
    case Options => 5
    case Info => 6
    case MessageMethod => 7
    case Notify => 8
    case Subscribe => 9
    case Update => 10
    case Prack => 11
    case Refer => 12
  }

  lemma {:induction false} MethodFound(m: Method, k: nat)
    requires k <= MethodIndex(m)
    ensures MethodFrom(MethodText(m), k) == Some(m)
    decreases MethodIndex(m) - k
  {
    hide MethodText;
    if MethodText(METHODS[k]) == MethodText(m) {
      MethodShape(m);
      MethodTextInjective(METHODS[k], m);
    } else {
      MethodFound(m, k + 1);
    }
  }

  lemma MethodReadBack(m: Method)
    ensures ParseMethod(MethodText(m)) == Some(m)
  {
    hide MethodText, MethodFrom;
    MethodShape(m);
    assert Upper(MethodText(m)) == MethodText(m);
    MethodFound(m, 0);
  }

  lemma {:induction false} WordEndAt(w: string, rest: string)
    requires NoSpace(w) && (rest == "" || IsSpace(rest[0]))
    ensures WordEnd(w + rest) == |w|
  {
    if w == "" {
      assert w + rest == rest;
    } else {
      WordEndAt(w[1..], rest);
      assert (w + rest)[1..] == w[1..] + rest;
    }
  }

  lemma NextWordAt(w: string, rest: string)
    requires w != "" && NoSpace(w) && (rest == "" || IsSpace(rest[0]))
    ensures NextWord(w + rest) == Some((w, rest)) && NextWord(" " + (w + rest)) == Some((w, rest))
  {
    hide WordEnd, TrimStart;
    WordEndAt(w, rest);
    assert (w + rest)[0] == w[0] && w[0] in w;
    TrimStartNone(w + rest);
    TrimStartSpace(w + rest);
  }

  lemma TrimStartSpace(s: string)
    ensures TrimStart(" " + s) == TrimStart(s)
  {
    assert (" " + s)[1..] == s;
  }

  predicate Visible(s: string) {
    forall i :: 0 <= i < |s| ==> !IsSpace(s[i]) && !IsControl(s[i])
  }

  function RequestLine(m: Method, uri: U.Uri): string {
    MethodText(m) + " " + U.Print(uri) + " SIP/2.0"
  }

  lemma RequestLineReadBack(m: Method, uri: U.Uri)
    requires U.UriOk(uri) && Visible(U.Print(uri))
    ensures ParseRequestLine(RequestLine(m, uri)) == Some((m, uri))
  {
    hide MethodText, ParseMethod, U.Print, U.Parse, U.UriOk, NextWord;
    MethodShape(m);
    var verb, target, tail := MethodText(m), U.Print(uri), " SIP/2.0";
    assert RequestLine(m, uri) == verb + (" " + (target + tail));
    NextWordAt(verb, " " + (target + tail));
    U.UriRoundTrip(uri);
    PrintNonEmpty(uri);
    NextWordAt(target, tail);
    MethodReadBack(m);
  }

  lemma PrintNonEmpty(uri: U.Uri)
    ensures U.Print(uri) != ""
  {
  }

  lemma RequestLineSafe(m: Method, uri: U.Uri)
    requires Visible(U.Print(uri))
    ensures var s := RequestLine(m, uri); HeaderSafe(s) == s && s != "" && !StartsWith(s, "SIP/")
  {
    hide U.Print, WithoutControls;
    var s := RequestLine(m, uri);
    MethodShape(m);
    NotSip(m, " " + U.Print(uri) + " SIP/2.0");
    assert s == MethodText(m) + (" " + U.Print(uri) + " SIP/2.0");
    hide MethodText;
    assert forall i :: 0 <= i < |s| ==> !IsLow(s[i]);
  }

  lemma NotSip(m: Method, rest: string)
    ensures !StartsWith(MethodText(m) + rest, "SIP/")
  {
    var s := MethodText(m) + rest;
    assert s[0] == MethodText(m)[0] && s[1] == MethodText(m)[1];
    assert s[0] == 'S' ==> s[1] == 'U';
    assert |s| >= 4 ==> s[..4][0] == s[0] && s[..4][1] == s[1];
  }

  function StatusPrefix(code: nat): string {
    "SIP/2.0 " + Decimal(code) + " "
  }

  lemma StatusLineReadBack(code: nat, reason: string)
    requires code <= 65535
    ensures ParseStatusLine(StatusPrefix(code) + reason) == Some((code, reason))
    ensures StartsWith(StatusPrefix(code) + reason, "SIP/")
  {
    hide Decimal, ParseUnsigned, SplitOnce;
    var line := StatusPrefix(code) + reason;
    var rest := Decimal(code) + [' '] + reason;
    assert line == "SIP/2.0" + [' '] + rest;
    SplitOnceAt("SIP/2.0", ' ', rest);
    U.DigitsAvoid(Decimal(code), ' ');
    U.CutAt(Decimal(code), ' ', reason);
    ParseDecimal(code, 65535);
  }

  lemma StatusPrefixClean(code: nat)
    ensures forall i :: 0 <= i < |StatusPrefix(code)| ==> !IsControl(StatusPrefix(code)[i])
  {
    hide Decimal;
    assert forall i :: 0 <= i < |Decimal(code)| ==> IsDigit(Decimal(code)[i]);
  }

  // ------------------------------------------------------------------ framing

  /** Any header values, reason and body; names as the parser stores them; a URI that prints without blanks. */
  predicate MessageOk(m: Message) {
    && (forall i :: 0 <= i < |m.headers| ==> NameOk(m.headers[i].name))
    && |m.body| <= USIZE_MAX
    && match m {
      case Request(_, uri, _, _) => U.UriOk(uri) && Visible(U.Print(uri))
      case Response(code, _, _, _) => code <= 65535
    }
  }

  /** The message a receiver reconstructs. */
  function Arrived(m: Message): Message {
    match m
    case Request(verb, uri, hs, body) => Request(verb, uri, Framed(hs, body), body)
    case Response(code, reason, hs, body) => Response(code, HeaderSafe(reason), Framed(hs, body), body)
  }

  /** Whatever the values hold, line breaks included, the receiver finds the same names, and nothing added but the length. */
  lemma FramingRoundTrip(m: Message)
    requires MessageOk(m)
    ensures ParseMessage(Encode(m)) == Some(Arrived(m))
  {
    hide ParseMessage, Serialize, HeaderSafe, Framed, CutBody, Get, LengthKey, NameOk, RequestLine, StatusPrefix, ParseStatusLine, ParseRequestLine, StartsWith;
    FramedBody(m.headers, m.body);
    match m {
      case Request(verb, uri, hs, body) =>
        RequestLineSafe(verb, uri);
        RequestLineReadBack(verb, uri);
        EncodeRequest(verb, uri, hs, body);
        SerializedReadBack(RequestLine(verb, uri), hs, body);
      case Response(code, reason, hs, body) =>
        StatusPrefixClean(code);
        HeaderSafeAppend(StatusPrefix(code), reason);
        StatusLineReadBack(code, HeaderSafe(reason));
        EncodeResponse(code, reason, hs, body);
        PrefixNonEmpty(code);
        SerializedReadBack(StatusPrefix(code) + reason, hs, body);
    }
  }

  lemma EncodeRequest(verb: Method, uri: U.Uri, hs: seq<Header>, body: string)
    ensures Encode(Request(verb, uri, hs, body)) == Serialize(RequestLine(verb, uri), hs, body)
  {
  }

  lemma EncodeResponse(code: nat, reason: string, hs: seq<Header>, body: string)
    ensures Encode(Response(code, reason, hs, body)) == Serialize(StatusPrefix(code) + reason, hs, body)
  {
  }

  lemma PrefixNonEmpty(code: nat)
    ensures StatusPrefix(code) != ""
  {
  }

  // ---------------------------------------------------- forwarding what arrived

  lemma {:induction false} SafeIsStable(v: string)
    ensures var t := Trim(HeaderSafe(v)); Trim(HeaderSafe(t)) == t
    ensures HeaderSafe(HeaderSafe(v)) == HeaderSafe(v)
  {
    hide Trim, WithoutControls;
    var s := HeaderSafe(v);
    var t := Trim(s);
    HeaderSafeNoBreak(v);
    TrimIsSlice(s);
    U.TrimIsTrimmed(s);
    TrimTrimmed(t);
  }

  lemma TrimIsSlice(s: string)
    ensures exists i, j :: 0 <= i <= j <= |s| && Trim(s) == s[i..j]
  {
    var t := TrimStart(s);
    var r := TrimEnd(t);
    var i := |s| - |t|;
    assert r == s[i..i + |r|];
  }

  lemma FramedIsStable(hs: seq<Header>, body: string)
    ensures Framed(Framed(hs, body), body) == Framed(hs, body)
    ensures forall i :: 0 <= i < |hs| ==> Framed(hs, body)[i].name == hs[i].name
  {
    hide Trim, HeaderSafe, Decimal, LengthKey;
    var framed := Framed(hs, body);
    if HasLength(hs) {
      var i :| 0 <= i < |hs| && hs[i].name == LengthKey();
      assert framed[i].name == LengthKey();
    } else {
      assert framed[|hs|].name == LengthKey();
    }
    forall i | 0 <= i < |framed|
      ensures Seen(framed[i], body) == framed[i]
    {
      if i < |hs| {
        SafeIsStable(hs[i].value);
      }
    }
  }

  lemma LengthKeyOk()
    ensures NameOk(LengthKey())
  {
    hide Canonical;
    LengthIsCanonical();
  }

  lemma FramedNames(hs: seq<Header>, body: string)
    requires forall i :: 0 <= i < |hs| ==> NameOk(hs[i].name)
    ensures forall i :: 0 <= i < |Framed(hs, body)| ==> NameOk(Framed(hs, body)[i].name)
  {
    hide NameOk, LengthKey, HeaderSafe, Decimal, Trim;
    LengthKeyOk();
  }

  lemma ArrivedIsOk(m: Message)
    requires MessageOk(m)
    ensures MessageOk(Arrived(m))
  {
    hide Framed, HeaderSafe, NameOk, U.UriOk, Visible;
    FramedNames(m.headers, m.body);
  }

  lemma ArrivedIsStable(m: Message)
    ensures Arrived(Arrived(m)) == Arrived(m)
  {
    hide Framed, HeaderSafe;
    FramedIsStable(m.headers, m.body);
    if m.Response? {
      SafeIsStable(m.reason);
    }
  }

  /** A message that was received and is sent on unchanged arrives unchanged. */
  lemma ForwardingIsStable(m: Message)
    requires MessageOk(m)
    ensures ParseMessage(Encode(Arrived(m))) == Some(Arrived(m))
  {
    hide ParseMessage, Encode, Arrived, MessageOk;
    ArrivedIsOk(m);
    ArrivedIsStable(m);
    FramingRoundTrip(Arrived(m));
  }
}
