/** SIP URIs and name-addrs (src/sip/uri.rs): the parsers, the printers, and what survives both. */
module SipUri {
  import opened Util
  import opened Text

  type Param = (string, Option<string>)

  datatype Uri = Uri(
    scheme: string,
    user: Option<string>,
    password: Option<string>,
    host: string,
    port: Option<nat>,
    params: seq<Param>,
    headers: seq<(string, string)>
  )

  const MAX_PORT: nat := 65535

  predicate PortOk(port: Option<nat>) {
    port.Some? ==> port.value <= MAX_PORT
  }

  predicate KnownScheme(s: string) {
    s == "sip" || s == "sips" || s == "tel"
  }

  // ------------------------------------------------------------------ parsing

  /** What comes before the first `c`, and what comes after it if it is there. */
  function Cut(s: string, c: char): (string, Option<string>) {
    match SplitOnce(s, c)
    case Some((a, b)) => (a, Some(b))
    case None => (s, None)
  }

  /** User part and host part, around the last at-sign. */
  function CutUser(s: string): (Option<string>, string) {
    match RSplitOnce(s, '@')
    case Some((u, h)) => (Some(u), h)
    case None => (None, s)
  }

  function SplitPort(s: string): (string, Option<nat>) {
    match RSplitOnce(s, ':')
    case None => (s, None)
    case Some((h, p)) =>
      if ':' in h then (s, None)
      else
        match ParseUnsigned(p, MAX_PORT)
        case Some(port) => (h, Some(port))
        case None => (s, None)
  }

  function PortAfterBracket(rest: string): Option<nat> {
    if rest != [] && rest[0] == ':' then ParseUnsigned(rest[1..], MAX_PORT) else None
  }

  /** Host and port, with the host of an IPv6 reference taken out of its brackets. */
  function SplitHostPort(text: string): (string, Option<nat>) {
    var s := Trim(text);
    if s == [] || s[0] != '[' then SplitPort(s)
    else
      match SplitOnce(s[1..], ']')
      case None => SplitPort(s)
      case Some((host, rest)) => (host, PortAfterBracket(rest))
  }

  function ParamOf(piece: string): Param {
    match SplitOnce(piece, '=')
    case Some((k, v)) => (Lower(k), Some(v))
    case None => (Lower(piece), None)
  }

  /** Nothing for an empty piece. */
  function ParamPiece(piece: string): seq<Param> {
    if piece == "" then [] else [ParamOf(piece)]
  }

  /** Nothing for a piece without equals sign. */
  function HeaderPiece(piece: string): seq<(string, string)> {
    match SplitOnce(piece, '=')
    case Some(kv) => [kv]
    case None => []
  }

  function ParseParams(text: Option<string>): seq<Param> {
    if text.Some? then FlatMap(Split(text.value, ';'), ParamPiece) else []
  }

  function ParseHeaders(text: Option<string>): seq<(string, string)> {
    if text.Some? then FlatMap(Split(text.value, '&'), HeaderPiece) else []
  }

  /** User, password, host and port from what precedes parameters and headers. */
  function ParseAuthority(scheme: string, text: string): Uri {
    var (info, hostport) := CutUser(text);
    var (user, password) :=
      match info
      case None => (None, None)
      case Some(ui) => var (u, p) := Cut(ui, ':'); (Some(u), p);
    if scheme == "tel" then Uri(scheme, Some(Trim(hostport)), password, "", None, [], [])
    else
      var (host, port) := SplitHostPort(hostport);
      Uri(scheme, user, password, host, port, [], [])
  }

  function ParseRest(scheme: string, text: string): Uri {
    var (body, headers) := Cut(text, '?');
    var (authority, params) := Cut(body, ';');
    ParseAuthority(scheme, authority).(params := ParseParams(params), headers := ParseHeaders(headers))
  }

  function Parse(text: string): Option<Uri> {
    match SplitOnce(Trim(text), ':')
    case None => None
    case Some((s, rest)) =>
      var scheme := Lower(Trim(s));
      if KnownScheme(scheme) then Some(ParseRest(scheme, rest)) else None
  }

  // ----------------------------------------------------------------- printing

  function HostForWire(host: string): string {
    if ':' in host && host[0] != '[' then "[" + host + "]" else host
  }

  function PortText(port: Option<nat>): string {
    if port.Some? then ":" + Decimal(port.value) else ""
  }

  function UserText(u: Uri): string {
    if u.user.None? then ""
    else u.user.value + (if u.password.Some? then ":" + u.password.value else "") + if u.host != "" then "@" else ""
  }

  function Authority(u: Uri): string {
    UserText(u) + (HostForWire(u.host) + PortText(u.port))
  }

  function ParamText(p: Param): string {
    match p.1
    case Some(v) => p.0 + "=" + v
    case None => p.0
  }

  function ParamsText(ps: seq<Param>): string {
    Prefixed(Texts(ps, ParamText), ';')
  }

  function HeaderText(h: (string, string)): string {
    h.0 + "=" + h.1
  }

  function HeadersText(hs: seq<(string, string)>): string {
    if hs == [] then "" else "?" + Join(Texts(hs, HeaderText), '&')
  }

  function Print(u: Uri): string {
    u.scheme + ":" + (Authority(u) + ParamsText(u.params) + HeadersText(u.headers))
  }

  // ------------------------------------------------------ which URIs survive

  predicate NoDelimiter(s: string) {
    '?' !in s && ';' !in s
  }

  predicate ParamOk(p: Param) {
    && NoDelimiter(p.0) && '=' !in p.0 && IsLower(p.0)
    && (p.1.Some? ==> NoDelimiter(p.1.value))
    && (p.1.None? ==> p.0 != "")
  }

  predicate HeaderOk(h: (string, string)) {
    '&' !in h.0 && '=' !in h.0 && '&' !in h.1
  }

  /** A name, an IPv4 address or an unbracketed IPv6 address. */
  predicate HostOk(host: string) {
    && host != "" && host[0] != '['
    && (':' in host ==> ']' !in host)
    && NoDelimiter(host) && '@' !in host && Trimmed(host)
  }

  predicate AuthorityOk(u: Uri) {
    && (u.user.Some? ==> NoDelimiter(u.user.value))
    && (u.password.Some? ==> NoDelimiter(u.password.value))
    && if u.scheme == "tel" then
         u.user.Some? && '@' !in u.user.value && Trimmed(u.user.value) && u.password.None? && u.host == "" && u.port.None?
       else
         && (u.user.Some? ==> ':' !in u.user.value)
         && (u.password.Some? ==> u.user.Some?)
         && HostOk(u.host)
         && PortOk(u.port)
  }

  /** Every field avoids the characters that end it, and the text does not end in white space. */
  predicate UriOk(u: Uri) {
    && KnownScheme(u.scheme)
    && AuthorityOk(u)
    && (forall i :: 0 <= i < |u.params| ==> ParamOk(u.params[i]))
    && (forall i :: 0 <= i < |u.headers| ==> HeaderOk(u.headers[i]))
    && Trimmed(Print(u))
  }

  // --------------------------------------------------------------- round trip

  lemma CutAt(a: string, c: char, b: string)
    requires c !in a
    ensures Cut(a + [c] + b, c) == (a, Some(b))
  {
    SplitOnceAt(a, c, b);
  }

  lemma CutNone(a: string, c: char)
    requires c !in a
    ensures Cut(a, c) == (a, None)
  {
    SplitOnceNone(a, c);
  }

  lemma {:induction false} PrefixedAvoids(ps: seq<string>, sep: char, c: char)
    requires c != sep && forall i :: 0 <= i < |ps| ==> c !in ps[i]
    ensures c !in Prefixed(ps, sep)
  {
    if ps != [] {
      PrefixedAvoids(ps[1..], sep, c);
    }
  }

  lemma PrefixedNone(c: char)
    ensures Prefixed([], c) == ""
  {
  }

  lemma PrefixedIsJoin(ps: seq<string>, c: char)
    requires ps != []
    ensures Prefixed(ps, c) == [c] + Join(ps, c)
  {
    assert [c] + ps[0] + Prefixed(ps[1..], c) == [c] + (ps[0] + Prefixed(ps[1..], c));
  }

  lemma ParamReadBack(p: Param)
    requires ParamOk(p)
    ensures ';' !in ParamText(p) && '?' !in ParamText(p) && ParamPiece(ParamText(p)) == [p]
  {
    LowerOfLower(p.0);
    if p.1.Some? {
      SplitOnceAt(p.0, '=', p.1.value);
    } else {
      SplitOnceNone(p.0, '=');
    }
  }

  lemma HeaderReadBack(h: (string, string))
    requires HeaderOk(h)
    ensures '&' !in HeaderText(h) && HeaderPiece(HeaderText(h)) == [h]
  {
    SplitOnceAt(h.0, '=', h.1);
  }

  /** Parameters after a text without semicolon are cut off and read back. */
  lemma ParamsCut(a: string, ps: seq<Param>)
    requires ';' !in a && forall i :: 0 <= i < |ps| ==> ParamOk(ps[i])
    ensures var (authority, params) := Cut(a + ParamsText(ps), ';'); authority == a && ParseParams(params) == ps
    ensures '?' !in ParamsText(ps)
  {
    hide ParamOk, ParamText, ParamPiece, Cut, Split, FlatMap, Join, Prefixed;
    var texts := Texts(ps, ParamText);
    forall i | 0 <= i < |ps|
      ensures ';' !in texts[i] && '?' !in texts[i] && ParamPiece(ParamText(ps[i])) == [ps[i]]
    {
      ParamReadBack(ps[i]);
    }
    PrefixedAvoids(texts, ';', '?');
    if ps == [] {
      PrefixedNone(';');
      CutNone(a, ';');
      assert a + "" == a;
    } else {
      PrefixedIsJoin(texts, ';');
      assert a + ([';'] + Join(texts, ';')) == a + [';'] + Join(texts, ';');
      CutAt(a, ';', Join(texts, ';'));
      SplitJoin(texts, ';');
      FlatMapTexts(ps, ParamPiece, ParamText);
    }
  }

  lemma HeadersCut(a: string, hs: seq<(string, string)>)
    requires '?' !in a && forall i :: 0 <= i < |hs| ==> HeaderOk(hs[i])
    ensures var (body, headers) := Cut(a + HeadersText(hs), '?'); body == a && ParseHeaders(headers) == hs
  {
    hide HeaderOk, HeaderText, HeaderPiece, Cut, Split, FlatMap, Join;
    if hs == [] {
      CutNone(a, '?');
      assert a + "" == a;
    } else {
      var texts := Texts(hs, HeaderText);
      forall i | 0 <= i < |hs|
        ensures '&' !in texts[i] && HeaderPiece(HeaderText(hs[i])) == [hs[i]]
      {
        HeaderReadBack(hs[i]);
      }
      assert a + ("?" + Join(texts, '&')) == a + ['?'] + Join(texts, '&');
      CutAt(a, '?', Join(texts, '&'));
      SplitJoin(texts, '&');
      FlatMapTexts(hs, HeaderPiece, HeaderText);
    }
  }

  lemma DigitsAvoid(s: string, c: char)
    requires AllDigits(s) && !IsDigit(c)
    ensures c !in s
  {
  }

  lemma PortAvoids(port: Option<nat>, c: char)
    requires c != ':' && !IsDigit(c)
    ensures c !in PortText(port)
  {
    hide Decimal;
    if port.Some? {
      DigitsAvoid(Decimal(port.value), c);
    }
  }

  lemma WireTrimmed(host: string, port: Option<nat>)
    requires HostOk(host)
    ensures Trimmed(HostForWire(host) + PortText(port))
  {
    hide Decimal, NoDelimiter;
    if port.Some? {
      var digits := Decimal(port.value);
      assert IsDigit(digits[|digits| - 1]);
    }
  }

  /** A host and an optional port are told apart, brackets and all. */
  lemma HostPortReadBack(host: string, port: Option<nat>)
    requires HostOk(host) && PortOk(port)
    ensures SplitHostPort(HostForWire(host) + PortText(port)) == (host, port)
    ensures '@' !in HostForWire(host) + PortText(port) && NoDelimiter(HostForWire(host) + PortText(port))
  {
    hide PortText, SplitHostPort, Trim, Trimmed;
    PortAvoids(port, '@');
    PortAvoids(port, '?');
    PortAvoids(port, ';');
    WireTrimmed(host, port);
    TrimTrimmed(HostForWire(host) + PortText(port));
    if ':' in host {
      BracketedReadBack(host, port);
    } else {
      PlainReadBack(host, port);
    }
  }

  lemma PortReadBack(port: Option<nat>)
    requires PortOk(port)
    ensures PortAfterBracket(PortText(port)) == port
  {
    hide Decimal, ParseUnsigned;
    if port.Some? {
      ParseDecimal(port.value, MAX_PORT);
      assert PortText(port)[1..] == Decimal(port.value);
    }
  }

  lemma BracketedReadBack(host: string, port: Option<nat>)
    requires ':' in host && host[0] != '[' && ']' !in host && PortOk(port)
    ensures var s := HostForWire(host) + PortText(port); Trim(s) == s ==> SplitHostPort(s) == (host, port)
  {
    hide PortText, PortAfterBracket, SplitPort, SplitOnce, Trim;
    var s := HostForWire(host) + PortText(port);
    assert s[0] == '[' && s[1..] == host + [']'] + PortText(port);
    SplitOnceAt(host, ']', PortText(port));
    PortReadBack(port);
  }

  lemma PlainReadBack(host: string, port: Option<nat>)
    requires ':' !in host && host != "" && host[0] != '[' && PortOk(port)
    ensures var s := HostForWire(host) + PortText(port); Trim(s) == s ==> SplitHostPort(s) == (host, port)
  {
    hide Decimal, ParseUnsigned, RSplitOnce, Trim, SplitOnce;
    var s := HostForWire(host) + PortText(port);
    assert s[0] == host[0];
    if port.Some? {
      ParseDecimal(port.value, MAX_PORT);
      DigitsAvoid(Decimal(port.value), ':');
      assert s == host + [':'] + Decimal(port.value);
      RSplitOnceAt(host, ':', Decimal(port.value));
    } else {
      assert s == host;
      RSplitOnceNone(host, ':');
    }
  }

  function WithoutLists(u: Uri): Uri {
    u.(params := [], headers := [])
  }

  lemma AuthorityReadBack(u: Uri)
    requires KnownScheme(u.scheme) && AuthorityOk(u)
    ensures ParseAuthority(u.scheme, Authority(u)) == WithoutLists(u) && NoDelimiter(Authority(u))
  {
    hide SplitHostPort, HostForWire, PortText, RSplitOnce, SplitOnce, Trim;
    if u.scheme == "tel" {
      TelReadBack(u);
    } else {
      var hp := HostForWire(u.host) + PortText(u.port);
      HostPortReadBack(u.host, u.port);
      if u.user.None? {
        assert Authority(u) == hp;
        RSplitOnceNone(hp, '@');
      } else {
        var ui := u.user.value + if u.password.Some? then ":" + u.password.value else "";
        assert Authority(u) == ui + ['@'] + hp;
        RSplitOnceAt(ui, '@', hp);
        if u.password.Some? {
          assert ui == u.user.value + [':'] + u.password.value;
          CutAt(u.user.value, ':', u.password.value);
        } else {
          assert ui == u.user.value;
          CutNone(ui, ':');
        }
      }
    }
  }

  lemma TelReadBack(u: Uri)
    requires u.scheme == "tel" && AuthorityOk(u)
    ensures ParseAuthority(u.scheme, Authority(u)) == WithoutLists(u) && NoDelimiter(Authority(u))
  {
    hide SplitHostPort, RSplitOnce, Trim;
    assert Authority(u) == u.user.value;
    RSplitOnceNone(u.user.value, '@');
    TrimTrimmed(u.user.value);
  }

  /** Section 19.1.1 of RFC 3261: printing a URI and parsing it again gives the same URI. */
  lemma UriRoundTrip(u: Uri)
    requires UriOk(u)
    ensures Parse(Print(u)) == Some(u)
  {
    hide Authority, ParseAuthority, AuthorityOk, ParamsText, HeadersText, Cut, SplitOnce, Trim, ParseParams, ParseHeaders, ParamOk, HeaderOk;
    var a := Authority(u);
    var rest := a + ParamsText(u.params) + HeadersText(u.headers);
    TrimTrimmed(Print(u));
    SchemeReadBack(u.scheme);
    SplitOnceAt(u.scheme, ':', rest);
    AuthorityReadBack(u);
    ParamsCut(a, u.params);
    HeadersCut(a + ParamsText(u.params), u.headers);
  }

  lemma SchemePlain(scheme: string)
    requires KnownScheme(scheme)
    ensures ':' !in scheme && Trimmed(scheme) && IsLower(scheme)
  {
  }

  lemma SchemeReadBack(scheme: string)
    requires KnownScheme(scheme)
    ensures ':' !in scheme && Lower(Trim(scheme)) == scheme
  {
    hide KnownScheme, Trim, Trimmed, Lower, IsLower;
    SchemePlain(scheme);
    TrimTrimmed(scheme);
    LowerOfLower(scheme);
  }

  // -------------------------------------------------- what the parser guarantees

  lemma CutAvoids(s: string, c: char, d: char)
    requires d !in s
    ensures d !in Cut(s, c).0 && (Cut(s, c).1.Some? ==> d !in Cut(s, c).1.value)
  {
  }

  lemma CutStops(s: string, c: char)
    ensures c !in Cut(s, c).0
  {
  }

  lemma {:induction false} SplitAvoids(s: string, c: char, d: char)
    requires d == c || d !in s
    ensures forall i :: 0 <= i < |Split(s, c)| ==> d !in Split(s, c)[i]
    decreases |s|
  {
    var i := IndexOf(s, c);
    if i < |s| {
      SplitAvoids(s[i + 1..], c, d);
    }
  }

  lemma LowerAvoids(s: string, c: char)
    requires c !in s && !('a' <= c <= 'z')
    ensures c !in Lower(s) && IsLower(Lower(s))
  {
  }

  lemma ParamPieceOk(piece: string)
    requires NoDelimiter(piece)
    ensures forall k :: 0 <= k < |ParamPiece(piece)| ==> ParamOk(ParamPiece(piece)[k])
  {
    var (k, v) := Cut(piece, '=');
    CutAvoids(piece, '=', '?');
    CutAvoids(piece, '=', ';');
    CutStops(piece, '=');
    LowerAvoids(k, '?');
    LowerAvoids(k, ';');
    LowerAvoids(k, '=');
  }

  lemma HeaderPieceOk(piece: string)
    requires '&' !in piece
    ensures forall k :: 0 <= k < |HeaderPiece(piece)| ==> HeaderOk(HeaderPiece(piece)[k])
  {
    CutAvoids(piece, '=', '&');
    CutStops(piece, '=');
  }

  lemma ParsedParams(text: Option<string>)
    requires text.Some? ==> '?' !in text.value
    ensures forall i :: 0 <= i < |ParseParams(text)| ==> ParamOk(ParseParams(text)[i])
  {
    hide ParamPiece, ParamOk, Split, FlatMap;
    if text.Some? {
      var pieces := Split(text.value, ';');
      SplitAvoids(text.value, ';', ';');
      SplitAvoids(text.value, ';', '?');
      forall i | 0 <= i < |pieces|
        ensures forall k :: 0 <= k < |ParamPiece(pieces[i])| ==> ParamOk(ParamPiece(pieces[i])[k])
      {
        ParamPieceOk(pieces[i]);
      }
      FlatMapAll(pieces, ParamPiece, ParamOk);
    }
  }

  lemma ParsedHeaders(text: Option<string>)
    ensures forall i :: 0 <= i < |ParseHeaders(text)| ==> HeaderOk(ParseHeaders(text)[i])
  {
    hide HeaderPiece, HeaderOk, Split, FlatMap;
    if text.Some? {
      var pieces := Split(text.value, '&');
      SplitAvoids(text.value, '&', '&');
      forall i | 0 <= i < |pieces|
        ensures forall k :: 0 <= k < |HeaderPiece(pieces[i])| ==> HeaderOk(HeaderPiece(pieces[i])[k])
      {
        HeaderPieceOk(pieces[i]);
      }
      FlatMapAll(pieces, HeaderPiece, HeaderOk);
    }
  }

  lemma TrimAvoids(s: string, c: char)
    requires c !in s
    ensures c !in Trim(s)
  {
  }

  lemma SplitPortAvoids(s: string, c: char)
    requires c !in s
    ensures c !in SplitPort(s).0 && PortOk(SplitPort(s).1)
  {
  }

  lemma HostPortAvoids(s: string, c: char)
    requires c !in s
    ensures c !in SplitHostPort(s).0 && PortOk(SplitHostPort(s).1)
  {
    hide SplitPort, Trim;
    TrimAvoids(s, c);
    SplitPortAvoids(Trim(s), c);
    var t := Trim(s);
    if t != [] {
      CutAvoids(t[1..], ']', c);
    }
  }

  lemma CutUserAvoids(s: string, c: char)
    requires c !in s
    ensures c !in CutUser(s).1 && '@' !in CutUser(s).1 && (CutUser(s).0.Some? ==> c !in CutUser(s).0.value)
  {
  }

  lemma ParsedAuthority(scheme: string, text: string)
    requires NoDelimiter(text)
    ensures var u := ParseAuthority(scheme, text);
            && u.scheme == scheme
            && (u.user.Some? ==> NoDelimiter(u.user.value))
            && (u.password.Some? ==> NoDelimiter(u.password.value))
            && if scheme == "tel" then
                 u.user.Some? && '@' !in u.user.value && Trimmed(u.user.value) && u.host == "" && u.port.None?
               else
                 && (u.user.Some? ==> ':' !in u.user.value)
                 && (u.password.Some? ==> u.user.Some?)
                 && NoDelimiter(u.host) && '@' !in u.host && PortOk(u.port)
  {
    hide SplitHostPort, Cut, CutUser, Trim;
    var (info, hostport) := CutUser(text);
    CutUserAvoids(text, '?');
    CutUserAvoids(text, ';');
    TrimAvoids(hostport, '?');
    TrimAvoids(hostport, ';');
    TrimAvoids(hostport, '@');
    TrimIsTrimmed(hostport);
    HostPortAvoids(hostport, '?');
    HostPortAvoids(hostport, ';');
    HostPortAvoids(hostport, '@');
    if info.Some? {
      CutAvoids(info.value, ':', '?');
      CutAvoids(info.value, ':', ';');
      CutStops(info.value, ':');
    }
  }

  lemma TrimIsTrimmed(s: string)
    ensures Trimmed(Trim(s))
  {
    var t := TrimStart(s);
    assert Trim(s) != [] ==> Trim(s)[0] == t[0];
  }

  // --------------------------------------------------------------- name-addrs

  datatype NameAddr = NameAddr(display: Option<string>, uri: Uri, params: seq<(string, string)>)

  /** Display name and what follows it; `None` for an unterminated quote. */
  function TakeDisplay(s: string): Option<(Option<string>, string)> {
    if s != [] && s[0] == '"' then
      match SplitOnce(s[1..], '"')
      case None => None
      case Some((d, rest)) => Some((Some(d), TrimStart(rest)))
    else if s != [] && s[0] == '<' then Some((None, s))
    else
      var i := IndexOf(s, '<');
      if i == |s| then Some((None, s))
      else
        var d := Trim(s[..i]);
        Some((if d == "" then None else Some(d), s[i..]))
  }

  /** The URI text and the parameter text; `None` for an unterminated bracket. */
  function TakeUri(rest: string): Option<(string, string)> {
    if rest != [] && rest[0] == '<' then
      match SplitOnce(rest[1..], '>')
      case None => None
      case Some((u, p)) => Some((u, TrimStart(p)))
    else
      match SplitOnce(rest, ';')
      case Some(up) => Some(up)
      case None => Some((rest, ""))
  }

  function DropSemicolons(s: string): string {
    if s != [] && s[0] == ';' then DropSemicolons(s[1..]) else s
  }

  function AddrParamOf(p: string): (string, string) {
    match SplitOnce(p, '=')
    case Some((k, v)) => (Lower(Trim(k)), Trim(v))
    case None => (Lower(p), "")
  }

  /** Nothing for a blank piece. */
  function AddrPiece(piece: string): seq<(string, string)> {
    var p := Trim(piece);
    if p == "" then [] else [AddrParamOf(p)]
  }

  function ParseAddrParams(text: string): seq<(string, string)> {
    FlatMap(Split(DropSemicolons(text), ';'), AddrPiece)
  }

  function ParseNameAddr(text: string): Option<NameAddr> {
    match TakeDisplay(Trim(text))
    case None => None
    case Some((display, rest)) =>
      match TakeUri(rest)
      case None => None
      case Some((uriText, paramText)) =>
        match Parse(uriText)
        case None => None
        case Some(uri) => Some(NameAddr(display, uri, ParseAddrParams(paramText)))
  }

  function DisplayText(d: Option<string>): string {
    if d.Some? then "\"" + d.value + "\" " else ""
  }

  function AddrParamText(p: (string, string)): string {
    if p.1 == "" then p.0 else p.0 + "=" + p.1
  }

  function AddrParamsText(ps: seq<(string, string)>): string {
    Prefixed(Texts(ps, AddrParamText), ';')
  }

  function PrintNameAddr(n: NameAddr): string {
    DisplayText(n.display) + ("<" + Print(n.uri) + ">" + AddrParamsText(n.params))
  }

  predicate AddrParamOk(p: (string, string)) {
    && ';' !in p.0 && '=' !in p.0 && IsLower(p.0) && Trimmed(p.0)
    && ';' !in p.1 && Trimmed(p.1)
    && (p.0 != "" || p.1 != "")
  }

  predicate NameAddrOk(n: NameAddr) {
    && (n.display.Some? ==> '"' !in n.display.value)
    && UriOk(n.uri) && '>' !in Print(n.uri)
    && forall i :: 0 <= i < |n.params| ==> AddrParamOk(n.params[i])
  }

  lemma AddrParamReadBack(p: (string, string))
    requires AddrParamOk(p)
    ensures var t := AddrParamText(p); t != "" && Trimmed(t) && ';' !in t && AddrPiece(t) == [p]
  {
    hide Trim, SplitOnce;
    LowerOfLower(p.0);
    TrimTrimmed(p.0);
    TrimTrimmed(p.1);
    TrimTrimmed(AddrParamText(p));
    if p.1 != "" {
      SplitOnceAt(p.0, '=', p.1);
    } else {
      SplitOnceNone(p.0, '=');
    }
  }

  lemma AddrParamsCut(ps: seq<(string, string)>)
    requires forall i :: 0 <= i < |ps| ==> AddrParamOk(ps[i])
    ensures ParseAddrParams(AddrParamsText(ps)) == ps
  {
    hide AddrParamOk, AddrParamText, AddrPiece, Split, FlatMap, Join, Prefixed, Trimmed;
    var texts := Texts(ps, AddrParamText);
    if ps == [] {
      PrefixedNone(';');
      NoParams();
    } else {
      forall i | 0 <= i < |ps|
        ensures texts[i] != "" && ';' !in texts[i] && AddrPiece(AddrParamText(ps[i])) == [ps[i]]
      {
        AddrParamReadBack(ps[i]);
      }
      PrefixedIsJoin(texts, ';');
      DropLeading(texts);
      SplitJoin(texts, ';');
      FlatMapTexts(ps, AddrPiece, AddrParamText);
    }
  }

  lemma DropLeading(texts: seq<string>)
    requires texts != [] && texts[0] != "" && ';' !in texts[0]
    ensures DropSemicolons([';'] + Join(texts, ';')) == Join(texts, ';')
  {
    hide Prefixed;
    var joined := Join(texts, ';');
    assert joined[0] == texts[0][0] && texts[0][0] in texts[0];
    assert ([';'] + joined)[1..] == joined;
  }

  lemma NoParams()
    ensures ParseAddrParams("") == []
  {
    hide FlatMap, AddrParamOf;
    assert Split("", ';') == [""];
    FlatMapOne("", AddrPiece);
  }

  lemma DisplayReadBack(d: Option<string>, rest: string)
    requires (d.Some? ==> '"' !in d.value) && rest != "" && rest[0] == '<'
    ensures TakeDisplay(DisplayText(d) + rest) == Some((d, rest))
  {
    hide SplitOnce;
    if d.Some? {
      var s := DisplayText(d) + rest;
      assert s[1..] == d.value + ['"'] + (" " + rest);
      SplitOnceAt(d.value, '"', " " + rest);
      assert (" " + rest)[1..] == rest;
      assert TrimStart(" " + rest) == rest;
    } else {
      assert DisplayText(d) + rest == rest;
    }
  }

  /** The last character is that of the last piece. */
  lemma {:induction false} PrefixedEnd(ps: seq<string>, c: char)
    requires ps != [] && ps[|ps| - 1] != ""
    ensures Prefixed(ps, c) != "" && Prefixed(ps, c)[0] == c
    ensures var t := Prefixed(ps, c); var p := ps[|ps| - 1]; t[|t| - 1] == p[|p| - 1]
  {
    if |ps| > 1 {
      assert ps[1..][|ps[1..]| - 1] == ps[|ps| - 1];
      PrefixedEnd(ps[1..], c);
    } else {
      PrefixedNone(c);
      assert ps[1..] == [];
    }
  }

  lemma ParamsTextTrimmed(ps: seq<(string, string)>)
    requires forall i :: 0 <= i < |ps| ==> AddrParamOk(ps[i])
    ensures var t := AddrParamsText(ps); t == "" || (t[0] == ';' && !IsSpace(t[|t| - 1]))
  {
    hide AddrParamOk, AddrParamText, AddrPiece, Prefixed;
    var texts := Texts(ps, AddrParamText);
    if texts == [] {
      PrefixedNone(';');
    } else {
      AddrParamReadBack(ps[|ps| - 1]);
      PrefixedEnd(texts, ';');
    }
  }

  lemma PrintedTrimmed(n: NameAddr)
    requires NameAddrOk(n)
    ensures Trimmed(PrintNameAddr(n)) && TrimStart(AddrParamsText(n.params)) == AddrParamsText(n.params)
  {
    hide UriOk, Print, AddrParamOk, AddrParamsText, TrimStart;
    var t := AddrParamsText(n.params);
    ParamsTextTrimmed(n.params);
    TrimStartNone(t);
    var rest := "<" + Print(n.uri) + ">" + t;
    assert rest[0] == '<' && !IsSpace(rest[|rest| - 1]);
  }

  /** A name-addr survives printing: display name, URI and header parameters. */
  lemma NameAddrRoundTrip(n: NameAddr)
    requires NameAddrOk(n)
    ensures ParseNameAddr(PrintNameAddr(n)) == Some(n)
  {
    hide UriOk, Print, Parse, AddrParamOk, AddrParamsText, TakeDisplay, DisplayText, SplitOnce, ParseAddrParams, Trim, Trimmed, TrimStart;
    var params := AddrParamsText(n.params);
    var rest := "<" + Print(n.uri) + ">" + params;
    PrintedTrimmed(n);
    TrimTrimmed(PrintNameAddr(n));
    DisplayReadBack(n.display, rest);
    assert rest[1..] == Print(n.uri) + ['>'] + params;
    SplitOnceAt(Print(n.uri), '>', params);
    UriRoundTrip(n.uri);
    AddrParamsCut(n.params);
  }

  // ---------------------------------------------------------------- parameters

  /** Value of the first parameter of that name, ignoring case. */
  function AddrParam(ps: seq<(string, string)>, name: string): Option<string> {
    if ps == [] then None
    else if EqIgnoreCase(ps[0].0, name) then Some(ps[0].1)
    else AddrParam(ps[1..], name)
  }

  function Dropped(ps: seq<(string, string)>, name: string): seq<(string, string)> {
    if ps == [] then []
    else if EqIgnoreCase(ps[0].0, name) then Dropped(ps[1..], name)
    else [ps[0]] + Dropped(ps[1..], name)
  }

  function SetAddrParam(n: NameAddr, name: string, value: Option<string>): NameAddr {
    n.(params := Dropped(n.params, name) + [(Lower(name), if value.Some? then value.value else "")])
  }

  lemma {:induction false} DroppedParams(ps: seq<(string, string)>, name: string, last: (string, string), other: string)
    requires EqIgnoreCase(last.0, name)
    ensures AddrParam(Dropped(ps, name) + [last], other)
         == if EqIgnoreCase(name, other) then Some(last.1) else AddrParam(ps, other)
  {
    var now := Dropped(ps, name) + [last];
    if ps == [] {
      assert now == [last];
    } else {
      DroppedParams(ps[1..], name, last, other);
      if !EqIgnoreCase(ps[0].0, name) {
        assert now[0] == ps[0] && now[1..] == Dropped(ps[1..], name) + [last];
      }
    }
  }

  lemma LowerIdempotent(s: string)
    ensures EqIgnoreCase(Lower(s), s)
  {
    var a, b := Lower(Lower(s)), Lower(s);
    assert forall i :: 0 <= i < |s| ==> a[i] == b[i];
  }

  /** Setting a parameter (a dialog tag) is seen under any spelling of its name and disturbs no other. */
  lemma SetAddrParamReads(n: NameAddr, name: string, value: Option<string>, other: string)
    ensures var m := SetAddrParam(n, name, value);
            AddrParam(m.params, other) == if EqIgnoreCase(name, other) then Some(if value.Some? then value.value else "")
                                          else AddrParam(n.params, other)
  {
    LowerIdempotent(name);
    DroppedParams(n.params, name, (Lower(name), if value.Some? then value.value else ""), other);
  }

  // ------------------------------------------------- the loops of the parsers

  method ReadParams(text: string) returns (params: seq<Param>)
    ensures params == ParseParams(Some(text))
  {
    params := FlatMapLoop(Split(text, ';'), ParamPiece);
  }

  method ReadHeaders(text: string) returns (headers: seq<(string, string)>)
    ensures headers == ParseHeaders(Some(text))
  {
    headers := FlatMapLoop(Split(text, '&'), HeaderPiece);
  }

  method ReadAddrParams(text: string) returns (params: seq<(string, string)>)
    ensures params == ParseAddrParams(text)
  {
    params := FlatMapLoop(Split(DropSemicolons(text), ';'), AddrPiece);
  }
}
