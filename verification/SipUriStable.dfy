/**
 Exactly which parsed URIs can be written back out (src/sip/uri.rs): the digest check and the dialog
 headers compare re-serialised URIs, which is sound for those whose printed form parses to them again.
 */
module SipUriStable {
  import opened Util
  import opened Text
  import opened SipUri

  // ------------------------------------------------------------ the condition

  predicate EndsInSpace(s: string) {
    s != "" && IsSpace(s[|s| - 1])
  }

  /** One colon, and what follows it reads as a port. */
  predicate AmbiguousPort(host: string) {
    match RSplitOnce(host, ':')
    case None => false
    case Some((h, p)) => ':' !in h && ParseUnsigned(p, MAX_PORT).Some?
  }

  /** The host is told from the port again: by case of an opening bracket, a colon, or neither. */
  predicate StableHost(host: string, port: Option<nat>)
    requires host != ""
  {
    if host[0] == '[' then
      if port.Some? then ':' !in host else !EndsInSpace(host) && !AmbiguousPort(host)
    else if ':' in host then ']' !in host
    else !IsSpace(host[0]) && (port.None? ==> !EndsInSpace(host))
  }

  predicate StableAuthority(u: Uri) {
    if u.scheme == "tel" then u.password.None?
    else if u.host == "" then u.user.None?
    else StableHost(u.host, u.port)
  }

  predicate HasLists(u: Uri) {
    u.params != [] || u.headers != []
  }

  /** No white space after the last parameter or header, and an authority that is read back. */
  predicate Stable(u: Uri) {
    (HasLists(u) ==> !EndsInSpace(Print(u))) && StableAuthority(u)
  }

  // ----------------------------------------------------------------- trimming

  lemma {:induction false} TrimEndAppend(a: string, b: string)
    requires a != "" && !IsSpace(a[|a| - 1])
    ensures TrimEnd(a + b) == a + TrimEnd(b)
    decreases |b|
  {
    if b == "" {
      assert a + b == a;
    } else if IsSpace(b[|b| - 1]) {
      TrimEndAppend(a, b[..|b| - 1]);
      assert (a + b)[..|a + b| - 1] == a + b[..|b| - 1];
    }
  }

  lemma TrimEndNone(s: string)
    ensures !EndsInSpace(s) ==> TrimEnd(s) == s
    ensures EndsInSpace(s) ==> |TrimEnd(s)| < |s|
  {
  }

  /** Trimming a text that starts without space only cuts its end. */
  lemma TrimIsTrimEnd(s: string)
    requires s != "" && !IsSpace(s[0])
    ensures Trim(s) == TrimEnd(s) && TrimEnd(s) != "" && TrimEnd(s)[0] == s[0]
  {
    TrimStartNone(s);
    hide TrimStart;
    assert s == [s[0]] + s[1..];
    TrimEndAppend([s[0]], s[1..]);
  }

  lemma TrimLeadingSpace(s: string)
    requires s != "" && IsSpace(s[0])
    ensures Trim(s) == Trim(s[1..])
  {
  }

  lemma TrimEndStep(s: string)
    requires EndsInSpace(s)
    ensures TrimEnd(s) == TrimEnd(s[..|s| - 1])
  {
  }

  /** A trailing space makes no difference to what is left after trimming. */
  lemma {:induction false} TrimDropLast(s: string)
    requires EndsInSpace(s)
    ensures Trim(s) == Trim(s[..|s| - 1])
    decreases |s|
  {
    hide Trim, TrimEnd;
    var t := s[..|s| - 1];
    if |s| == 1 {
      TrimLeadingSpace(s);
      assert s[1..] == "" && t == "";
    } else if IsSpace(s[0]) {
      TrimLeadingSpace(s);
      TrimLeadingSpace(t);
      TrimDropLast(s[1..]);
      assert s[1..][..|s| - 2] == t[1..];
    } else {
      TrimIsTrimEnd(s);
      TrimIsTrimEnd(t);
      TrimEndStep(s);
    }
  }

  lemma {:induction false} TrimOfTrimEnd(s: string)
    ensures Trim(TrimEnd(s)) == Trim(s)
    decreases |s|
  {
    hide Trim;
    if EndsInSpace(s) {
      TrimDropLast(s);
      TrimOfTrimEnd(s[..|s| - 1]);
    }
  }

  // --------------------------------------------------------------------- host

  lemma SplitPortShrinks(s: string)
    ensures var h := SplitPort(s).0; |h| <= |s| && h == s[..|h|]
  {
  }

  lemma Within(s: string, t: string, c: char)
    requires c !in s && |t| <= |s| && (t == s[..|t|] || t == s[|s| - |t|..])
    ensures c !in t
  {
  }

  /** Without a closing bracket the host is what precedes a port, whatever it starts with. */
  lemma NoClosing(w: string)
    requires ']' !in w
    ensures SplitHostPort(w) == SplitPort(Trim(w))
  {
    hide SplitPort, Trim;
    TrimAvoids(w, ']');
    var t := Trim(w);
    if t != "" {
      SplitOnceNone(t[1..], ']');
    }
  }

  lemma PortTextEnds(w: string, port: Option<nat>)
    requires port.Some?
    ensures !EndsInSpace(w + PortText(port)) && ']' !in PortText(port) && '[' !in PortText(port)
  {
    hide Decimal;
    var d := Decimal(port.value);
    assert IsDigit(d[|d| - 1]) && d[|d| - 1] in d;
    DigitsAvoid(d, ']');
    DigitsAvoid(d, '[');
  }

  /** A text that ends in space loses it, and with it its length. */
  lemma TrailingSpace(host: string)
    requires host != "" && !IsSpace(host[0]) && EndsInSpace(host) && (host[0] == '[' ==> ']' !in host)
    ensures SplitHostPort(host).0 != host
  {
    hide Trim, TrimEnd, SplitPort, SplitOnce;
    TrimIsTrimEnd(host);
    TrimEndNone(host);
    SplitPortShrinks(Trim(host));
    if host[0] == '[' {
      NoClosing(host);
    }
  }

  lemma BracketHost(host: string, port: Option<nat>)
    requires host != "" && host[0] == '[' && ']' !in host && PortOk(port)
    ensures SplitHostPort(host + PortText(port)) == (host, port) <==> StableHost(host, port)
  {
    hide Trim, TrimEnd, Decimal, ParseUnsigned, RSplitOnce;
    var w := host + PortText(port);
    if port.Some? {
      PortTextEnds(host, port);
      NoClosing(w);
      TrimIsTrimEnd(w);
      TrimEndNone(w);
      PortTail(host, port.value);
    } else {
      assert w == host;
      if EndsInSpace(host) {
        TrailingSpace(host);
      } else {
        NoClosing(host);
        TrimIsTrimEnd(host);
        TrimEndNone(host);
      }
    }
  }

  lemma PortTail(host: string, port: nat)
    requires port <= MAX_PORT
    ensures SplitPort(host + PortText(Some(port))) == if ':' in host then (host + PortText(Some(port)), None) else (host, Some(port))
  {
    hide Decimal, ParseUnsigned, RSplitOnce;
    ParseDecimal(port, MAX_PORT);
    DigitsAvoid(Decimal(port), ':');
    assert host + PortText(Some(port)) == host + [':'] + Decimal(port);
    RSplitOnceAt(host, ':', Decimal(port));
  }

  lemma ColonHost(host: string, port: Option<nat>)
    requires host != "" && host[0] != '[' && ':' in host && PortOk(port)
    ensures SplitHostPort(HostForWire(host) + PortText(port)) == (host, port) <==> ']' !in host
  {
    hide HostForWire, SplitHostPort, PortText, SplitOnce, Trim, TrimEnd;
    var w := HostForWire(host) + PortText(port);
    WireEnd(host, port);
    WireTail(host, PortText(port));
    if ']' !in host {
      TrimTrimmed(w);
      BracketedReadBack(host, port);
    } else {
      FirstBracket(host, PortText(port));
      InBrackets(w);
    }
  }

  /** In brackets the host is what precedes the first closing one. */
  lemma InBrackets(w: string)
    requires w != "" && w[0] == '[' && !EndsInSpace(w) && SplitOnce(w[1..], ']').Some?
    ensures SplitHostPort(w).0 == SplitOnce(w[1..], ']').value.0
  {
    hide SplitOnce, Trim, SplitPort;
    TrimTrimmed(w);
  }

  lemma WireTail(host: string, p: string)
    requires ':' in host && host[0] != '['
    ensures (HostForWire(host) + p)[1..] == host + "]" + p
  {
  }

  lemma WireEnd(host: string, port: Option<nat>)
    requires ':' in host && host[0] != '['
    ensures var w := HostForWire(host) + PortText(port); w != "" && w[0] == '[' && !EndsInSpace(w)
  {
    hide PortText;
    if port.Some? {
      PortTextEnds(HostForWire(host), port);
    } else {
      PortTextNone();
    }
  }

  lemma FirstBracket(host: string, rest: string)
    requires ']' in host
    ensures var s := SplitOnce(host + "]" + rest, ']'); s.Some? && |s.value.0| < |host|
  {
    var w := host + "]" + rest;
    var i := IndexOf(w, ']');
    var k :| 0 <= k < |host| && host[k] == ']';
    assert w[k] == ']';
    assert forall j :: 0 <= j < i ==> w[j] == w[..i][j] && w[j] in w[..i];
  }

  lemma PlainHost(host: string, port: Option<nat>)
    requires host != "" && host[0] != '[' && ':' !in host && PortOk(port) && (IsSpace(host[0]) ==> ']' !in host)
    ensures SplitHostPort(host + PortText(port)) == (host, port) <==> StableHost(host, port)
  {
    hide Trim, TrimEnd, PortText, SplitPort;
    var w := host + PortText(port);
    if IsSpace(host[0]) {
      PortAvoids(port, ']');
      NoClosing(w);
      TrimIsTrimmed(w);
      SplitPortShrinks(Trim(w));
    } else if port.Some? {
      PortTextEnds(host, port);
      TrimIsTrimEnd(w);
      TrimEndNone(w);
      PortTail(host, port.value);
    } else {
      PortTextNone();
      assert w == host;
      if EndsInSpace(host) {
        TrailingSpace(host);
      } else {
        TrimIsTrimEnd(host);
        TrimEndNone(host);
        NoPort(host);
      }
    }
  }

  lemma PortTextNone()
    ensures PortText(None) == ""
  {
  }

  lemma NoPort(host: string)
    requires ':' !in host
    ensures SplitPort(host) == (host, None)
  {
    RSplitOnceNone(host, ':');
  }

  /** What the parser lets through as a host: one that starts with a bracket or a space came out of brackets. */
  predicate HostParsed(host: string) {
    host != "" && (host[0] == '[' || IsSpace(host[0])) ==> ']' !in host
  }

  lemma ParsedHost(s: string)
    ensures HostParsed(SplitHostPort(s).0)
  {
    hide SplitPort, Trim, SplitOnce;
    var t := Trim(s);
    TrimIsTrimmed(s);
    SplitPortShrinks(t);
    if t != "" && t[0] == '[' {
      BracketCut(t[1..]);
    }
  }

  lemma BracketCut(s: string)
    ensures match SplitOnce(s, ']') case None => ']' !in s case Some((a, _)) => ']' !in a
  {
  }

  lemma HostExactly(host: string, port: Option<nat>)
    requires host != "" && HostParsed(host) && PortOk(port)
    ensures SplitHostPort(HostForWire(host) + PortText(port)) == (host, port) <==> StableHost(host, port)
  {
    hide SplitHostPort, PortText;
    if host[0] == '[' {
      BracketHost(host, port);
    } else if ':' in host {
      ColonHost(host, port);
    } else {
      PlainHost(host, port);
    }
  }

  // ---------------------------------------------------------------- authority

  /** What the parser guarantees of the parts before parameters and headers. */
  predicate AuthorityParsed(u: Uri) {
    && KnownScheme(u.scheme)
    && (u.user.Some? ==> NoDelimiter(u.user.value))
    && (u.password.Some? ==> NoDelimiter(u.password.value))
    && if u.scheme == "tel" then
         u.user.Some? && '@' !in u.user.value && Trimmed(u.user.value) && u.host == "" && u.port.None?
       else
         && (u.user.Some? ==> ':' !in u.user.value)
         && (u.password.Some? ==> u.user.Some?)
         && NoDelimiter(u.host) && '@' !in u.host && PortOk(u.port) && HostParsed(u.host)
  }

  function UserInfo(u: Uri): string
    requires u.user.Some?
  {
    u.user.value + if u.password.Some? then ":" + u.password.value else ""
  }

  /** What the cut at the first colon gave is what stood there. */
  lemma CutBack(s: string, c: char)
    ensures var (a, b) := Cut(s, c); s == a + if b.Some? then [c] + b.value else ""
  {
  }

  /** A text without at-sign is all host. */
  lemma NoUser(scheme: string, a: string)
    requires '@' !in a
    ensures ParseAuthority(scheme, a).password.None? && (scheme != "tel" ==> ParseAuthority(scheme, a).user.None?)
  {
    hide SplitHostPort, RSplitOnce, Trim;
    RSplitOnceNone(a, '@');
  }

  lemma LastAt(a: string)
    requires '@' in a
    ensures var s := RSplitOnce(a, '@');
            s.Some? && a == s.value.0 + "@" + s.value.1 && a[|s.value.0|] == '@' && '@' !in s.value.1
  {
    var i := AfterLast(a, '@');
    assert a[0..] == a;
  }

  /** With a password the number of a tel URI takes it over, or both are cut short. */
  lemma TelPassword(u: Uri)
    requires AuthorityParsed(u) && u.scheme == "tel" && u.password.Some?
    ensures ParseAuthority(u.scheme, Authority(u)) != WithoutLists(u)
  {
    hide SplitHostPort, RSplitOnce, Trim, NoDelimiter;
    var p, user := u.password.value, u.user.value;
    var a := Authority(u);
    assert a == user + ":" + p;
    if '@' !in a {
      NoUser(u.scheme, a);
    } else {
      LastAt(a);
      var (ui, number) := RSplitOnce(a, '@').value;
      TrimShrinks(number);
      CutBack(ui, ':');
    }
  }

  lemma TrimShrinks(s: string)
    ensures |Trim(s)| <= |s|
  {
  }

  /** A user without host: the at-sign is not printed, so the user is lost or cut short. */
  lemma UserWithoutHost(u: Uri)
    requires AuthorityParsed(u) && u.scheme != "tel" && u.host == "" && u.user.Some?
    ensures ParseAuthority(u.scheme, Authority(u)) != WithoutLists(u)
  {
    hide SplitHostPort, RSplitOnce, NoDelimiter, PortText;
    var a := Authority(u);
    assert a == UserInfo(u) + PortText(u.port);
    PortAvoids(u.port, '@');
    if '@' !in a {
      NoUser(u.scheme, a);
    } else {
      LastAt(a);
      var (ui, _) := RSplitOnce(a, '@').value;
      CutBack(ui, ':');
      NoAtAfter(UserInfo(u), PortText(u.port));
    }
  }

  lemma NoAtAfter(x: string, y: string)
    requires '@' !in y
    ensures forall k :: |x| <= k < |x + y| ==> (x + y)[k] != '@'
  {
    forall k | |x| <= k < |x + y|
      ensures (x + y)[k] != '@'
    {
      assert (x + y)[k] == y[k - |x|];
    }
  }

  lemma NoHost(u: Uri)
    requires AuthorityParsed(u) && u.scheme != "tel" && u.host == "" && u.user.None?
    ensures ParseAuthority(u.scheme, Authority(u)) == WithoutLists(u)
  {
    hide SplitHostPort, RSplitOnce, PortText;
    PortAvoids(u.port, '@');
    assert Authority(u) == PortText(u.port);
    RSplitOnceNone(PortText(u.port), '@');
    BarePort(u.port);
  }

  lemma BarePort(port: Option<nat>)
    requires PortOk(port)
    ensures SplitHostPort(PortText(port)) == ("", port)
  {
    hide Decimal, ParseUnsigned, Trim, TrimEnd, RSplitOnce;
    var w := PortText(port);
    if port.Some? {
      PortTextEnds("", port);
      assert "" + w == w;
      TrimIsTrimEnd(w);
      TrimEndNone(w);
      PortTail("", port.value);
    } else {
      NoPort("");
      TrimTrimmed("");
    }
  }

  /** With a host, everything before it is read back. */
  lemma WithHost(u: Uri)
    requires AuthorityParsed(u) && u.scheme != "tel" && u.host != ""
    ensures ParseAuthority(u.scheme, Authority(u)) == WithoutLists(u) <==>
            SplitHostPort(HostForWire(u.host) + PortText(u.port)) == (u.host, u.port)
  {
    hide SplitHostPort, RSplitOnce, SplitOnce, PortText, NoDelimiter;
    var w := HostForWire(u.host) + PortText(u.port);
    PortAvoids(u.port, '@');
    if u.user.None? {
      assert Authority(u) == w;
      RSplitOnceNone(w, '@');
    } else {
      var ui := UserInfo(u);
      assert Authority(u) == ui + ['@'] + w;
      RSplitOnceAt(ui, '@', w);
      if u.password.Some? {
        assert ui == u.user.value + [':'] + u.password.value;
        CutAt(u.user.value, ':', u.password.value);
      } else {
        assert ui == u.user.value;
        CutNone(ui, ':');
      }
    }
  }

  lemma AuthorityExactly(u: Uri)
    requires AuthorityParsed(u)
    ensures ParseAuthority(u.scheme, Authority(u)) == WithoutLists(u) <==> StableAuthority(u)
  {
    hide ParseAuthority, Authority, HostForWire, PortText, SplitHostPort, StableHost;
    if u.scheme == "tel" {
      if u.password.Some? { TelPassword(u); } else { TelReadBack(u); }
    } else if u.host == "" {
      if u.user.Some? { UserWithoutHost(u); } else { NoHost(u); }
    } else {
      WithHost(u);
      HostExactly(u.host, u.port);
    }
  }

  /** White space after the authority is nothing to its parser. */
  lemma AuthorityIgnoresEnd(scheme: string, a: string)
    ensures ParseAuthority(scheme, TrimEnd(a)) == ParseAuthority(scheme, a)
  {
    hide SplitPort, SplitOnce, RSplitOnce, Trim, TrimEnd;
    TrimOfTrimEnd(a);
    if '@' !in a {
      RSplitOnceNone(a, '@');
      TrimEndWithin(a);
      RSplitOnceNone(TrimEnd(a), '@');
    } else {
      LastAt(a);
      var (ui, hp) := RSplitOnce(a, '@').value;
      TrimEndAppend(ui + "@", hp);
      TrimEndWithin(hp);
      assert ui + "@" + TrimEnd(hp) == ui + ['@'] + TrimEnd(hp);
      RSplitOnceAt(ui, '@', TrimEnd(hp));
      TrimOfTrimEnd(hp);
    }
  }

  lemma TrimEndWithin(s: string)
    ensures forall c :: c in TrimEnd(s) ==> c in s
  {
  }

  // -------------------------------------------------------- parameters, headers

  lemma {:induction false} JoinSnoc(ps: seq<string>, t: string, c: char)
    ensures Prefixed(ps + [t], c) == Prefixed(ps, c) + [c] + t
  {
    if ps == [] {
      assert [] + [t] == [t] && [t][1..] == [];
    } else {
      JoinSnoc(ps[1..], t, c);
      assert (ps + [t])[1..] == ps[1..] + [t];
    }
  }

  /** What reads as parameter `p` is as long as its text. */
  lemma ParamLength(t: string, p: Param)
    requires ParamPiece(t) == [p]
    ensures |ParamText(p)| == |t|
  {
    CutBack(t, '=');
  }

  lemma HeaderLength(t: string, h: (string, string))
    requires HeaderPiece(t) == [h]
    ensures |HeaderText(h)| == |t|
  {
    CutBack(t, '=');
  }

  lemma {:induction false} FlatMapSnoc<T>(ps: seq<string>, t: string, f: string -> seq<T>)
    ensures FlatMap(ps + [t], f) == FlatMap(ps, f) + f(t)
  {
    if ps == [] {
      assert [] + [t] == [t];
      FlatMapOne(t, f);
    } else {
      FlatMapSnoc(ps[1..], t, f);
      assert (ps + [t])[1..] == ps[1..] + [t];
    }
  }

  /** Any pieces after a text without semicolon are cut off and read one by one. */
  lemma PiecesCut(a: string, pieces: seq<string>)
    requires ';' !in a && pieces != [] && forall i :: 0 <= i < |pieces| ==> ';' !in pieces[i]
    ensures var (x, params) := Cut(a + Prefixed(pieces, ';'), ';'); x == a && ParseParams(params) == FlatMap(pieces, ParamPiece)
  {
    hide Cut, Split, FlatMap, Join, Prefixed;
    PrefixedIsJoin(pieces, ';');
    assert a + ([';'] + Join(pieces, ';')) == a + [';'] + Join(pieces, ';');
    CutAt(a, ';', Join(pieces, ';'));
    SplitJoin(pieces, ';');
  }

  lemma HeaderPiecesCut(a: string, pieces: seq<string>)
    requires '?' !in a && pieces != [] && forall i :: 0 <= i < |pieces| ==> '&' !in pieces[i]
    ensures var (x, headers) := Cut(a + ("?" + Join(pieces, '&')), '?'); x == a && ParseHeaders(headers) == FlatMap(pieces, HeaderPiece)
  {
    hide Cut, Split, FlatMap, Join;
    assert a + ("?" + Join(pieces, '&')) == a + ['?'] + Join(pieces, '&');
    CutAt(a, '?', Join(pieces, '&'));
    SplitJoin(pieces, '&');
  }

  /** A text list with a shorter last piece is not read back as the list. */
  lemma ParamsCutShort(ps: seq<Param>, t: string)
    requires ps != [] && (forall i :: 0 <= i < |ps| ==> ParamOk(ps[i])) && |t| < |ParamText(ps[|ps| - 1])|
    ensures FlatMap(Texts(ps[..|ps| - 1], ParamText) + [t], ParamPiece) != ps
  {
    hide ParamOk, ParamText, ParamPiece, FlatMap, Texts;
    var front, p := ps[..|ps| - 1], ps[|ps| - 1];
    ParamTextsBack(front);
    FlatMapSnoc(Texts(front, ParamText), t, ParamPiece);
    if front + ParamPiece(t) == ps {
      assert ps == front + [p];
      assert (front + ParamPiece(t))[|front|..] == ParamPiece(t) && (front + [p])[|front|..] == [p];
      ParamLength(t, p);
    }
  }

  lemma ParamTextsBack(ps: seq<Param>)
    requires forall i :: 0 <= i < |ps| ==> ParamOk(ps[i])
    ensures FlatMap(Texts(ps, ParamText), ParamPiece) == ps
  {
    hide ParamOk, ParamText, ParamPiece, FlatMap, Texts;
    forall i | 0 <= i < |ps|
      ensures ParamPiece(ParamText(ps[i])) == [ps[i]]
    {
      ParamReadBack(ps[i]);
    }
    FlatMapTexts(ps, ParamPiece, ParamText);
  }

  lemma HeadersCutShort(hs: seq<(string, string)>, t: string)
    requires hs != [] && (forall i :: 0 <= i < |hs| ==> HeaderOk(hs[i])) && |t| < |HeaderText(hs[|hs| - 1])|
    ensures FlatMap(Texts(hs[..|hs| - 1], HeaderText) + [t], HeaderPiece) != hs
  {
    hide HeaderOk, HeaderText, HeaderPiece, FlatMap, Texts;
    var front, h := hs[..|hs| - 1], hs[|hs| - 1];
    HeaderTextsBack(front);
    FlatMapSnoc(Texts(front, HeaderText), t, HeaderPiece);
    if front + HeaderPiece(t) == hs {
      assert hs == front + [h];
      assert (front + HeaderPiece(t))[|front|..] == HeaderPiece(t) && (front + [h])[|front|..] == [h];
      HeaderLength(t, h);
    }
  }

  lemma HeaderTextsBack(hs: seq<(string, string)>)
    requires forall i :: 0 <= i < |hs| ==> HeaderOk(hs[i])
    ensures FlatMap(Texts(hs, HeaderText), HeaderPiece) == hs
  {
    hide HeaderOk, HeaderText, HeaderPiece, FlatMap, Texts;
    forall i | 0 <= i < |hs|
      ensures HeaderPiece(HeaderText(hs[i])) == [hs[i]]
    {
      HeaderReadBack(hs[i]);
    }
    FlatMapTexts(hs, HeaderPiece, HeaderText);
  }

  // -------------------------------------------------------------- the whole URI

  predicate ListsParsed(u: Uri) {
    && (forall i :: 0 <= i < |u.params| ==> ParamOk(u.params[i]))
    && (forall i :: 0 <= i < |u.headers| ==> HeaderOk(u.headers[i]))
  }

  /** Whatever text it came from, a parsed URI has parts that avoid the characters that end them. */
  lemma ParsedParts(text: string, u: Uri)
    requires Parse(text) == Some(u)
    ensures AuthorityParsed(u) && ListsParsed(u)
  {
    hide Cut, ParseAuthority, ParseParams, ParseHeaders, ParamOk, HeaderOk, Trim;
    var (s, rest) := SplitOnce(Trim(text), ':').value;
    var scheme := Lower(Trim(s));
    var (body, headers) := Cut(rest, '?');
    var (authority, params) := Cut(body, ';');
    CutStops(rest, '?');
    CutAvoids(body, ';', '?');
    CutStops(body, ';');
    ParsedAuthority(scheme, authority);
    ParsedAuthorityHost(scheme, authority);
    ParsedParams(params);
    ParsedHeaders(headers);
  }

  lemma ParsedAuthorityHost(scheme: string, text: string)
    ensures HostParsed(ParseAuthority(scheme, text).host)
  {
    hide SplitHostPort, Cut, CutUser, Trim;
    ParsedHost(CutUser(text).1);
  }

  lemma AuthorityClean(u: Uri)
    requires AuthorityParsed(u)
    ensures NoDelimiter(Authority(u))
  {
    hide PortText;
    PortAvoids(u.port, '?');
    PortAvoids(u.port, ';');
  }

  function Rest(u: Uri): string {
    Authority(u) + ParamsText(u.params) + HeadersText(u.headers)
  }

  lemma Reparse(u: Uri)
    requires KnownScheme(u.scheme)
    ensures Parse(Print(u)) == Some(ParseRest(u.scheme, TrimEnd(Rest(u)))) && (EndsInSpace(Print(u)) <==> EndsInSpace(Rest(u)))
  {
    hide Authority, ParamsText, HeadersText, SplitOnce, Trim, TrimEnd, ParseRest;
    var p := u.scheme + ":" + Rest(u);
    SchemeReadBack(u.scheme);
    assert p[0] == 's' || p[0] == 't';
    TrimIsTrimEnd(p);
    TrimEndAppend(u.scheme + ":", Rest(u));
    assert u.scheme + ":" + TrimEnd(Rest(u)) == u.scheme + [':'] + TrimEnd(Rest(u));
    SplitOnceAt(u.scheme, ':', TrimEnd(Rest(u)));
  }

  lemma RestRead(u: Uri)
    requires AuthorityParsed(u) && ListsParsed(u)
    ensures ParseRest(u.scheme, Rest(u)) == ParseAuthority(u.scheme, Authority(u)).(params := u.params, headers := u.headers)
  {
    hide Authority, ParseAuthority, ParamsText, HeadersText, Cut, ParseParams, ParseHeaders, ParamOk, HeaderOk, AuthorityParsed;
    AuthorityClean(u);
    ParamsCut(Authority(u), u.params);
    HeadersCut(Authority(u) + ParamsText(u.params), u.headers);
  }

  /** Without lists, trailing space is nothing. */
  lemma BareRead(u: Uri)
    requires AuthorityParsed(u) && !HasLists(u)
    ensures ParseRest(u.scheme, TrimEnd(Rest(u))) == ParseAuthority(u.scheme, Authority(u))
  {
    hide Authority, ParseAuthority, Cut, AuthorityParsed, TrimEnd;
    var a := Authority(u);
    NothingElse(u);
    AuthorityClean(u);
    TrimEndWithin(a);
    CutNone(TrimEnd(a), '?');
    CutNone(TrimEnd(a), ';');
    AuthorityIgnoresEnd(u.scheme, a);
    ParsedWithoutLists(u.scheme, a);
  }

  lemma NothingElse(u: Uri)
    ensures !HasLists(u) ==> Rest(u) == Authority(u)
  {
    hide Authority;
    PrefixedNone(';');
  }

  lemma ParsedWithoutLists(scheme: string, a: string)
    ensures ParseAuthority(scheme, a).params == [] && ParseAuthority(scheme, a).headers == []
  {
    hide SplitHostPort, Cut, CutUser, Trim;
  }

  function Lead(front: seq<string>): string {
    if front == [] then "?" else "?" + Join(front, '&') + "&"
  }

  lemma JoinOne(t: string, c: char)
    ensures Join([t], c) == t
  {
    assert [t][1..] == [];
  }

  lemma JoinLead(front: seq<string>, t: string)
    ensures "?" + Join(front + [t], '&') == Lead(front) + t
  {
    hide Prefixed;
    if front == [] {
      assert [] + [t] == [t];
      JoinOne(t, '&');
    } else {
      var p, rest := front[0], front[1..];
      JoinSnoc(rest, t, '&');
      assert (front + [t])[0] == p && (front + [t])[1..] == rest + [t];
      assert p + (Prefixed(rest, '&') + ['&'] + t) == p + Prefixed(rest, '&') + "&" + t;
      assert "?" + (p + Prefixed(rest, '&') + "&" + t) == "?" + (p + Prefixed(rest, '&')) + "&" + t;
    }
  }

  /** Space after the last header is cut off its value, so the header changes. */
  lemma HeaderLoses(u: Uri)
    requires AuthorityParsed(u) && ListsParsed(u) && u.headers != [] && EndsInSpace(Rest(u))
    ensures ParseRest(u.scheme, TrimEnd(Rest(u))).headers != u.headers
  {
    hide Authority, ParseAuthority, ParamsText, Cut, ParseParams, ParseHeaders, ParamOk, HeaderOk, HeaderText, HeaderPiece;
    hide AuthorityParsed, TrimEnd, FlatMap, Join, Lead;
    var n := |u.headers| - 1;
    var x := Authority(u) + ParamsText(u.params);
    var front, t := Texts(u.headers[..n], HeaderText), HeaderText(u.headers[n]);
    var t' := TrimEnd(t);
    AuthorityClean(u);
    ParamsCut(Authority(u), u.params);
    assert Texts(u.headers, HeaderText) == front + [t];
    JoinLead(front, t);
    JoinLead(front, t');
    LeadEnds(x, front);
    HeaderTextEnds(u.headers[n]);
    assert Rest(u) == (x + Lead(front)) + t;
    TrimEndAppend(x + Lead(front), t);
    TrimEndNone(t);
    TrimEndWithin(t);
    assert (x + Lead(front)) + t' == x + ("?" + Join(front + [t'], '&'));
    forall i | 0 <= i < |front + [t']|
      ensures '&' !in (front + [t'])[i]
    {
      if i < n { HeaderReadBack(u.headers[i]); } else { HeaderReadBack(u.headers[n]); }
    }
    HeaderPiecesCut(x, front + [t']);
    HeadersCutShort(u.headers, t');
  }

  lemma LeadEnds(x: string, front: seq<string>)
    ensures var l := x + Lead(front); l != "" && !IsSpace(l[|l| - 1])
  {
    hide Join;
  }

  lemma HeaderTextEnds(h: (string, string))
    ensures HeaderText(h) != ""
  {
  }

  /** Space after the last parameter is cut off its value or name, so the parameter changes or goes. */
  lemma ParamLoses(u: Uri)
    requires AuthorityParsed(u) && ListsParsed(u) && u.headers == [] && u.params != [] && EndsInSpace(Rest(u))
    ensures ParseRest(u.scheme, TrimEnd(Rest(u))).params != u.params
  {
    hide Authority, ParseAuthority, Cut, ParseParams, ParseHeaders, ParamOk, HeaderOk, ParamText, ParamPiece;
    hide AuthorityParsed, TrimEnd, FlatMap, Prefixed;
    var n := |u.params| - 1;
    var a := Authority(u);
    var front, t := Texts(u.params[..n], ParamText), ParamText(u.params[n]);
    var t' := TrimEnd(t);
    AuthorityClean(u);
    assert Texts(u.params, ParamText) == front + [t];
    JoinSnoc(front, t, ';');
    JoinSnoc(front, t', ';');
    var lead := a + Prefixed(front, ';') + ";";
    assert Rest(u) == lead + t;
    ParamReadBack(u.params[n]);
    ParamTextEnds(u.params[n]);
    TrimEndAppend(lead, t);
    TrimEndNone(t);
    TrimEndWithin(t);
    var short := a + Prefixed(front + [t'], ';');
    assert lead + t' == short;
    forall i | 0 <= i < |front + [t']|
      ensures ';' !in (front + [t'])[i] && '?' !in (front + [t'])[i]
    {
      if i < n { ParamReadBack(u.params[i]); }
    }
    PrefixedAvoids(front + [t'], ';', '?');
    CutNone(short, '?');
    PiecesCut(a, front + [t']);
    ParamsCutShort(u.params, t');
  }

  lemma ParamTextEnds(p: Param)
    requires ParamOk(p)
    ensures ParamText(p) != ""
  {
  }

  /**
   Writing a parsed URI back out and parsing that gives the same URI exactly when no white space follows the
   last parameter or header and: a tel URI has no password; a sip URI without host has no user; a host in an
   opening bracket has no colon before its port, or, without port, does not end in space and in what reads as
   a port; a host with a colon has no closing bracket; and any other host neither starts nor ends in space.
   */
  lemma ReprintIsStable(text: string, u: Uri)
    requires Parse(text) == Some(u)
    ensures Parse(Print(u)) == Some(u) <==> Stable(u)
  {
    hide Parse, Print, ParseRest, Rest, ParseAuthority, Authority, StableAuthority, AuthorityParsed, ListsParsed, TrimEnd;
    ParsedParts(text, u);
    KnownFrom(u);
    Reparse(u);
    AuthorityExactly(u);
    TrimEndNone(Rest(u));
    if !HasLists(u) {
      BareRead(u);
    } else if !EndsInSpace(Print(u)) {
      RestRead(u);
      ParsedWithoutLists(u.scheme, Authority(u));
    } else if u.headers != [] {
      HeaderLoses(u);
    } else {
      ParamLoses(u);
    }
  }

  lemma KnownFrom(u: Uri)
    requires AuthorityParsed(u)
    ensures KnownScheme(u.scheme)
  {
  }

  function Hostless(w: string): Uri {
    Uri("sip", Some(w), None, "", None, [], [])
  }

  lemma HostlessRest(w: string)
    requires NoDelimiter(w) && ':' !in w
    ensures ParseRest("sip", w + "@") == Hostless(w)
  {
    hide SplitOnce, RSplitOnce, SplitHostPort;
    var rest := w + "@";
    CutNone(rest, '?');
    CutNone(rest, ';');
    assert rest == w + ['@'] + "";
    RSplitOnceAt(w, '@', "");
    CutNone(w, ':');
    BarePort(None);
    PortTextNone();
  }

  lemma HostlessParsed(w: string)
    requires NoDelimiter(w) && ':' !in w
    ensures Parse("sip:" + w + "@") == Some(Hostless(w))
  {
    hide SplitOnce, ParseRest, Trim, Hostless;
    var text := "sip:" + w + "@";
    assert text[0] == 's' && text[|text| - 1] == '@';
    TrimTrimmed(text);
    SchemeReadBack("sip");
    assert text == "sip" + [':'] + (w + "@");
    SplitOnceAt("sip", ':', w + "@");
    HostlessRest(w);
  }

  /** A user and an empty host: accepted, and printed as a host. */
  lemma HostlessUserIsUnstable(w: string)
    requires NoDelimiter(w) && ':' !in w
    ensures Parse("sip:" + w + "@") == Some(Hostless(w)) && Parse(Print(Hostless(w))) != Some(Hostless(w))
  {
    hide Parse, Print;
    HostlessParsed(w);
    ReprintIsStable("sip:" + w + "@", Hostless(w));
  }
}
