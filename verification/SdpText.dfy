/**
 SDP as text (src/sip/sdp.rs): the line parser and the renderer.  How an IP address is written
 and read is the standard library's; `Ip` holds that pair of functions.
 */
module SdpText {
  import opened Util
  import opened Text
  import opened SdpModel
  import M = SipMessage

  datatype Ip = Ip(show: nat -> string, read: string -> Option<nat>, isV6: nat -> bool)

  /** Addresses are read back, and are written without blanks, slashes or line ends. */
  ghost predicate IpOk(ip: Ip) {
    forall a: nat :: ip.read(ip.show(a)) == Some(a) && ip.show(a) != "" && NoSpace(ip.show(a)) && '/' !in ip.show(a)
  }

  // ------------------------------------------------------------------ parsing

  datatype Parser = Parser(
    address: Option<nat>,
    mediaAddress: Option<nat>,
    port: nat,
    payloadTypes: seq<nat>,
    telephoneEvent: Option<nat>,
    ptime: Option<nat>,
    direction: Direction,
    inAudio: bool,
    seenMedia: bool
  )

  const EMPTY: Parser := Parser(None, None, 0, [], None, None, SendRecv, false, false)

  function DropReturns(s: string): string {
    if s != [] && s[|s| - 1] == '\r' then DropReturns(s[..|s| - 1]) else s
  }

  lemma NextShrinks(s: string)
    ensures M.NextWord(s).Some? ==> |M.NextWord(s).value.1| < |s|
  {
  }

  /** `split_whitespace`. */
  function Words(s: string): seq<string>
    decreases |s|
  {
    NextShrinks(s);
    match M.NextWord(s)
    case None => []
    case Some((w, rest)) => [w] + Words(rest)
  }

  function ReadIp(ip: Ip, words: seq<string>): Option<nat> {
    if |words| > 2 then ip.read(Split(words[2], '/')[0]) else None
  }

  function Connection(p: Parser, address: Option<nat>): Parser {
    if !p.seenMedia then p.(address := address)
    else if p.inAudio then p.(mediaAddress := address)
    else p
  }

  function Numbers(words: seq<string>): seq<nat> {
    if words == [] then []
    else
      match ParseUnsigned(words[0], 255)
      case Some(v) => [v] + Numbers(words[1..])
      case None => Numbers(words[1..])
  }

  function PortOf(words: seq<string>): nat {
    if |words| > 1 then
      match ParseUnsigned(words[1], 65535)
      case Some(v) => v
      case None => 0
    else 0
  }

  /** The first audio section counts; a second one is passed over. */
  function MediaLine(p: Parser, words: seq<string>): Parser {
    var audio := words != [] && words[0] == "audio" && p.payloadTypes == [];
    var q := p.(seenMedia := true, inAudio := audio);
    if !audio then q
    else q.(port := PortOf(words), payloadTypes := Numbers(if |words| > 3 then words[3..] else []))
  }

  function RtpMap(p: Parser, words: seq<string>): Parser {
    if |words| >= 2 && StartsWith(Lower(words[1]), EventName()) then p.(telephoneEvent := ParseUnsigned(words[0], 255)) else p
  }

  function EventName(): string {
    "telephone-event"
  }

  function DirectionText(d: Direction): string {
    match d
    case SendRecv => "sendrecv"
    case SendOnly => "sendonly"
    case RecvOnly => "recvonly"
    case Inactive => "inactive"
  }

  function ReadDirection(attr: string): Option<Direction> {
    if EqIgnoreCase(attr, "sendonly") then Some(SendOnly)
    else if EqIgnoreCase(attr, "recvonly") then Some(RecvOnly)
    else if EqIgnoreCase(attr, "inactive") then Some(Inactive)
    else if EqIgnoreCase(attr, "sendrecv") then Some(SendRecv)
    else None
  }

  function MapPrefix(): string {
    "rtpmap:"
  }

  function PtimePrefix(): string {
    "ptime:"
  }

  function Attribute(p: Parser, attr: string): Parser {
    if StartsWith(attr, MapPrefix()) then RtpMap(p, Words(attr[|MapPrefix()|..]))
    else if StartsWith(attr, PtimePrefix()) then p.(ptime := ParseUnsigned(Trim(attr[|PtimePrefix()|..]), 0xFFFF_FFFF))
    else
      match ReadDirection(attr)
      case Some(d) => p.(direction := d)
      case None => p
  }

  /** A key and its value. */
  function KeyLine(ip: Ip, p: Parser, key: string, value: string): Parser {
    if key == "c" then Connection(p, ReadIp(ip, Words(value)))
    else if key == "m" then MediaLine(p, Words(value))
    else if key == "a" && (p.inAudio || !p.seenMedia) then Attribute(p, Trim(value))
    else p
  }

  function Line(ip: Ip, p: Parser, line: string): Parser {
    match SplitOnce(DropReturns(line), '=')
    case Some((key, value)) => KeyLine(ip, p, key, value)
    case None => p
  }

  function Feed(ip: Ip, p: Parser, lines: seq<string>): Parser
    decreases |lines|
  {
    if lines == [] then p else Feed(ip, Line(ip, p, lines[0]), lines[1..])
  }

  function Finish(p: Parser): Option<Sdp> {
    if p.payloadTypes == [] then None
    else
      var address := if p.mediaAddress.Some? then p.mediaAddress else p.address;
      Some(Sdp(if address.Some? then address.value else 0, p.port, p.payloadTypes, p.telephoneEvent, p.ptime, p.direction))
  }

  function ParseSdp(ip: Ip, text: string): Option<Sdp> {
    Finish(Feed(ip, EMPTY, Split(text, '\n')))
  }

  // ---------------------------------------------------------------- rendering

  /** Codecs in order, then the telephone-event type. */
  function Listed(s: Sdp): seq<nat> {
    s.payloadTypes + if s.telephoneEvent.Some? then [s.telephoneEvent.value] else []
  }

  function IpVersion(ip: Ip, address: nat): string {
    if ip.isV6(address) then "IP6" else "IP4"
  }

  function Rtpmap(c: Codec): string {
    match c
    case Pcmu => "PCMU/8000"
    case Pcma => "PCMA/8000"
  }

  /** A line of the description: its key and the rest. */
  datatype Item =
    | Fixed(key: char, text: string)
    | Conn(words: seq<string>)
    | Audio(words: seq<string>)
    | CodecMap(pt: nat, codec: Codec)
    | EventMap(pt: nat)
    | EventFormat(pt: nat)
    | Ptime(ms: nat)
    | Dir(d: Direction)

  function ItemText(i: Item): string {
    match i
    case Fixed(key, text) => [key] + "=" + text
    case Conn(words) => "c=" + Join(words, ' ')
    case Audio(words) => "m=" + Join(words, ' ')
    case CodecMap(pt, codec) => "a=" + (MapPrefix() + Join([Decimal(pt), Rtpmap(codec)], ' '))
    case EventMap(pt) => "a=" + (MapPrefix() + Join([Decimal(pt), EventName() + "/8000"], ' '))
    case EventFormat(pt) => "a=" + ("fmtp:" + Join([Decimal(pt), "0-16"], ' '))
    case Ptime(ms) => "a=" + (PtimePrefix() + Decimal(ms))
    case Dir(d) => "a=" + DirectionText(d)
  }

  function CodecMaps(pts: seq<nat>): seq<Item> {
    if pts == [] then []
    else
      match FromPayloadType(pts[0])
      case Some(c) => [CodecMap(pts[0], c)] + CodecMaps(pts[1..])
      case None => CodecMaps(pts[1..])
  }

  function Decimals(ns: seq<nat>): (r: seq<string>)
    ensures |r| == |ns| && forall i :: 0 <= i < |ns| ==> r[i] == Decimal(ns[i])
  {
    seq(|ns|, i requires 0 <= i < |ns| => Decimal(ns[i]))
  }

  function AudioWords(s: Sdp): seq<string> {
    ["audio", Decimal(s.port), "RTP/AVP"] + Decimals(Listed(s))
  }

  function EventItems(te: Option<nat>): seq<Item> {
    if te.Some? then [EventMap(te.value), EventFormat(te.value)] else []
  }

  function PtimeItems(ptime: Option<nat>): seq<Item> {
    if ptime.Some? then [Ptime(ptime.value)] else []
  }

  /** `origin` stands for the user name, session numbers and address of the o line. */
  function Items(ip: Ip, s: Sdp, origin: string): seq<Item> {
    [Fixed('v', "0"), Fixed('o', origin), Fixed('s', "modem2sip"), Conn(["IN", IpVersion(ip, s.address), ip.show(s.address)]),
     Fixed('t', "0 0"), Audio(AudioWords(s))]
    + CodecMaps(s.payloadTypes) + EventItems(s.telephoneEvent) + PtimeItems(s.ptime) + [Dir(s.direction)]
  }

  /** Each line ended by CR LF. */
  function ItemLines(items: seq<Item>): string {
    if items == [] then [] else ItemText(items[0]) + "\r\n" + ItemLines(items[1..])
  }

  function Render(ip: Ip, s: Sdp, origin: string): string {
    ItemLines(Items(ip, s, origin))
  }

  // ---------------------------------------------------------------- one line

  /** The line's meaning, without its text. */
  function Effect(ip: Ip, p: Parser, i: Item): Parser {
    match i
    case Fixed(_, _) => p
    case Conn(words) => Connection(p, ReadIp(ip, words))
    case Audio(words) => MediaLine(p, words)
    case CodecMap(_, _) => p
    case EventMap(pt) => if p.inAudio || !p.seenMedia then p.(telephoneEvent := Some(pt)) else p
    case EventFormat(_) => p
    case Ptime(ms) => if p.inAudio || !p.seenMedia then p.(ptime := Some(ms)) else p
    case Dir(d) => if p.inAudio || !p.seenMedia then p.(direction := d) else p
  }

  predicate WordsOk(ws: seq<string>) {
    ws != [] && forall i :: 0 <= i < |ws| ==> ws[i] != "" && NoSpace(ws[i])
  }

  predicate ItemOk(i: Item) {
    match i
    case Fixed(key, text) => key !in "acm=\r\n" && '\n' !in text && '\r' !in text
    case Conn(words) => WordsOk(words)
    case Audio(words) => WordsOk(words)
    case CodecMap(pt, _) => pt <= 255
    case EventMap(pt) => pt <= 255
    case EventFormat(pt) => pt <= 255
    case Ptime(ms) => ms <= 0xFFFF_FFFF
    case Dir(_) => true
  }

  lemma {:induction false} WordsJoin(ws: seq<string>)
    requires WordsOk(ws)
    ensures Words(Join(ws, ' ')) == ws
    decreases |ws|
  {
    hide M.NextWord;
    var rest := Prefixed(ws[1..], ' ');
    if |ws| > 1 {
      var tail := Join(ws[1..], ' ');
      assert rest == " " + tail by {
        assert ws[1..][0] == ws[1];
      }
      M.NextWordAt(ws[0], rest);
      WordsJoin(ws[1..]);
      WordsSpace(tail);
    } else {
      assert ws[1..] == [];
      assert rest == "";
      M.NextWordAt(ws[0], "");
      NoWords();
    }
  }

  lemma NoWords()
    ensures Words("") == []
  {
  }

  lemma WordsSpace(s: string)
    ensures Words(" " + s) == Words(s)
  {
    M.TrimStartSpace(s);
  }

  lemma JoinClean(ws: seq<string>, c: char)
    requires WordsOk(ws) && IsSpace(c) && c != ' '
    ensures c !in Join(ws, ' ')
  {
    hide Prefixed;
    M.U.PrefixedAvoids(ws[1..], ' ', c);
  }

  lemma JoinEnds(ws: seq<string>)
    requires WordsOk(ws)
    ensures var t := Join(ws, ' '); t != "" && !IsSpace(t[0]) && !IsSpace(t[|t| - 1])
  {
    hide Prefixed;
    var last := ws[|ws| - 1];
    assert ws[0][0] in ws[0] && last[|last| - 1] in last;
    if |ws| > 1 {
      assert ws[1..][|ws[1..]| - 1] == last;
      M.U.PrefixedEnd(ws[1..], ' ');
    } else {
      assert ws[1..] == [];
      M.U.PrefixedNone(' ');
    }
  }

  /** A rendered line is split at its first equals sign. */
  lemma LineMeans(ip: Ip, p: Parser, key: char, value: string)
    requires key != '=' && key != '\r' && '\r' !in value
    ensures Line(ip, p, [key] + "=" + value + "\r") == KeyLine(ip, p, [key], value)
  {
    hide KeyLine, SplitOnce;
    var line := [key] + "=" + value;
    assert (line + "\r")[..|line|] == line;
    assert line[|line| - 1] != '\r';
    assert DropReturns(line) == line;
    assert line == [key] + ['='] + value;
    SplitOnceAt([key], '=', value);
  }

  /** An attribute line, whose value has no blanks at its ends. */
  lemma AttributeMeans(ip: Ip, p: Parser, attr: string)
    requires '\r' !in attr && Trimmed(attr)
    ensures Line(ip, p, "a=" + attr + "\r") == if p.inAudio || !p.seenMedia then Attribute(p, attr) else p
  {
    hide Attribute, Line, Trim;
    assert "a=" + attr + "\r" == ['a'] + "=" + attr + "\r";
    LineMeans(ip, p, 'a', attr);
    TrimTrimmed(attr);
  }

  /** An attribute made of a prefix and words. */
  predicate AttrOk(attr: string) {
    '\r' !in attr && '\n' !in attr && Trimmed(attr)
  }

  lemma PrefixedAttr(prefix: string, ws: seq<string>)
    requires WordsOk(ws) && prefix != "" && NoSpace(prefix)
    ensures AttrOk(prefix + Join(ws, ' '))
  {
    hide Join;
    JoinClean(ws, '\r');
    JoinClean(ws, '\n');
    JoinEnds(ws);
    assert prefix[0] in prefix;
  }

  lemma StripPrefix(prefix: string, rest: string)
    ensures StartsWith(prefix + rest, prefix) && (prefix + rest)[|prefix|..] == rest
  {
    assert (prefix + rest)[..|prefix|] == prefix;
  }

  lemma DecimalWord(n: nat)
    ensures Decimal(n) != "" && NoSpace(Decimal(n))
  {
    hide Decimal;
  }

  lemma MapWords(pt: nat, name: string)
    requires name != "" && NoSpace(name)
    ensures WordsOk([Decimal(pt), name])
  {
    hide Decimal;
    DecimalWord(pt);
  }

  lemma MapPrefixPlain()
    ensures MapPrefix() != "" && NoSpace(MapPrefix())
  {
  }

  lemma MapMeans(p: Parser, pt: nat, name: string)
    requires pt <= 255 && name != "" && NoSpace(name)
    ensures var attr := MapPrefix() + Join([Decimal(pt), name], ' ');
            AttrOk(attr) && Attribute(p, attr) == if StartsWith(Lower(name), EventName()) then p.(telephoneEvent := Some(pt)) else p
  {
    hide MapPrefix, PtimePrefix, EventName, Decimal, ParseUnsigned, Words, Join, ReadDirection, Lower, AttrOk;
    MapPrefixPlain();
    MapWords(pt, name);
    var ws := [Decimal(pt), name];
    PrefixedAttr(MapPrefix(), ws);
    StripPrefix(MapPrefix(), Join(ws, ' '));
    WordsJoin(ws);
    ParseDecimal(pt, 255);
  }

  lemma CodecNames(c: Codec)
    ensures Rtpmap(c) != "" && NoSpace(Rtpmap(c)) && !StartsWith(Lower(Rtpmap(c)), EventName())
  {
  }

  lemma EventNamePlain()
    ensures EventName() != "" && NoSpace(EventName()) && Lower(EventName()) == EventName()
  {
  }

  lemma EventNames()
    ensures var name := EventName() + "/8000"; name != "" && NoSpace(name) && StartsWith(Lower(name), EventName())
  {
    hide EventName;
    EventNamePlain();
    var name := EventName() + "/8000";
    forall i | 0 <= i < |EventName()|
      ensures Lower(name)[..|EventName()|][i] == EventName()[i]
    {
      assert Lower(name)[i] == LowerChar(EventName()[i]) == Lower(EventName())[i];
    }
    assert Lower(name)[..|EventName()|] == EventName();
  }

  lemma OtherPrefix(attr: string)
    requires attr != "" && attr[0] == 'f'
    ensures !StartsWith(attr, MapPrefix()) && !StartsWith(attr, PtimePrefix()) && ReadDirection(attr) == None
  {
    assert |attr| >= 7 ==> attr[..7][0] == 'f';
    assert |attr| >= 6 ==> attr[..6][0] == 'f';
    assert Lower(attr)[0] == 'f';
    assert Lower("sendonly")[0] == 's' && Lower("recvonly")[0] == 'r' && Lower("inactive")[0] == 'i' && Lower("sendrecv")[0] == 's';
  }

  lemma FormatMeans(p: Parser, pt: nat)
    ensures var attr := "fmtp:" + Join([Decimal(pt), "0-16"], ' '); AttrOk(attr) && Attribute(p, attr) == p
  {
    hide Decimal, Join, AttrOk, ReadDirection, MapPrefix, PtimePrefix, RtpMap;
    MapWords(pt, "0-16");
    PrefixedAttr("fmtp:", [Decimal(pt), "0-16"]);
    OtherPrefix("fmtp:" + Join([Decimal(pt), "0-16"], ' '));
  }

  lemma PtimeMeans(p: Parser, ms: nat)
    requires ms <= 0xFFFF_FFFF
    ensures var attr := PtimePrefix() + Decimal(ms); AttrOk(attr) && Attribute(p, attr) == p.(ptime := Some(ms))
  {
    hide Decimal, ParseUnsigned, Trim, AttrOk, ReadDirection, RtpMap;
    DecimalWord(ms);
    PtimePlain(ms);
    StripPrefix(PtimePrefix(), Decimal(ms));
    M.DecimalTrimmed(ms);
    ParseDecimal(ms, 0xFFFF_FFFF);
  }

  lemma PtimePlain(ms: nat)
    ensures var attr := PtimePrefix() + Decimal(ms); AttrOk(attr) && !StartsWith(attr, MapPrefix())
  {
    hide Decimal;
    DecimalWord(ms);
    var attr := PtimePrefix() + Decimal(ms);
    var d := Decimal(ms);
    assert d[|d| - 1] in d;
    assert attr[0] == 'p';
    assert |attr| >= 7 ==> attr[..7][0] == 'p';
  }

  lemma DirectionShape(d: Direction)
    ensures var t := DirectionText(d); |t| == 8 && t[0] != 'p' && t[1] != 't' && AttrOk(t)
  {
  }

  lemma DirectionMeans(p: Parser, d: Direction)
    ensures var attr := DirectionText(d); AttrOk(attr) && Attribute(p, attr) == p.(direction := d)
  {
    hide Words, RtpMap, ParseUnsigned, Trim, Lower, ReadDirection, DirectionText;
    DirectionShape(d);
    var attr := DirectionText(d);
    assert attr[..7][1] == attr[1] && attr[..6][0] == attr[0];
    DirectionReadBack(d);
  }

  lemma DirectionReadBack(d: Direction)
    ensures ReadDirection(DirectionText(d)) == Some(d)
  {
    var t := Lower(DirectionText(d));
    assert Lower("sendonly")[4] == 'o' && Lower("recvonly")[4] == 'o' && Lower("inactive")[4] == 't' && Lower("sendrecv")[4] == 'r';
    assert Lower("sendonly")[0] == 's' && Lower("recvonly")[0] == 'r';
    assert t[0] == LowerChar(DirectionText(d)[0]) && t[4] == LowerChar(DirectionText(d)[4]);
  }

  lemma ConnAudioMeans(ip: Ip, p: Parser, words: seq<string>)
    requires WordsOk(words)
    ensures var t := Join(words, ' ');
            && '\n' !in t
            && Line(ip, p, "c=" + t + "\r") == Effect(ip, p, Conn(words))
            && Line(ip, p, "m=" + t + "\r") == Effect(ip, p, Audio(words))
  {
    hide Join, Words, Line, MediaLine, ReadIp, Connection, Attribute;
    var t := Join(words, ' ');
    JoinClean(words, '\r');
    JoinClean(words, '\n');
    WordsJoin(words);
    assert "c=" + t + "\r" == ['c'] + "=" + t + "\r" && "m=" + t + "\r" == ['m'] + "=" + t + "\r";
    LineMeans(ip, p, 'c', t);
    LineMeans(ip, p, 'm', t);
  }

  /** Reading a rendered line does what the line means. */
  lemma ItemMeans(ip: Ip, p: Parser, i: Item)
    requires ItemOk(i)
    ensures Line(ip, p, ItemText(i) + "\r") == Effect(ip, p, i) && '\n' !in ItemText(i)
  {
    hide Line, Join, Decimal, MapPrefix, PtimePrefix, EventName, Rtpmap, DirectionText, Attribute, WordsOk, Connection, MediaLine, ReadIp, Lower, StartsWith, Trimmed;
    match i {
      case Fixed(key, text) => FixedMeans(ip, p, key, text);
      case Conn(words) => ConnAudioMeans(ip, p, words);
      case Audio(words) => ConnAudioMeans(ip, p, words);
      case CodecMap(pt, c) =>
        CodecNames(c);
        MapMeans(p, pt, Rtpmap(c));
        AttributeMeans(ip, p, MapPrefix() + Join([Decimal(pt), Rtpmap(c)], ' '));
      case EventMap(pt) =>
        EventNames();
        MapMeans(p, pt, EventName() + "/8000");
        AttributeMeans(ip, p, MapPrefix() + Join([Decimal(pt), EventName() + "/8000"], ' '));
      case EventFormat(pt) =>
        FormatMeans(p, pt);
        AttributeMeans(ip, p, "fmtp:" + Join([Decimal(pt), "0-16"], ' '));
      case Ptime(ms) =>
        PtimeMeans(p, ms);
        AttributeMeans(ip, p, PtimePrefix() + Decimal(ms));
      case Dir(d) =>
        DirectionMeans(p, d);
        AttributeMeans(ip, p, DirectionText(d));
    }
  }

  lemma FixedMeans(ip: Ip, p: Parser, key: char, text: string)
    requires ItemOk(Fixed(key, text))
    ensures Line(ip, p, [key] + "=" + text + "\r") == p && '\n' !in [key] + "=" + text
  {
    hide Line, Attribute, MediaLine, Connection;
    LineMeans(ip, p, key, text);
  }

  // -------------------------------------------------------------- all the lines

  function EffectOf(ip: Ip, p: Parser, items: seq<Item>): Parser
    decreases |items|
  {
    if items == [] then p else EffectOf(ip, Effect(ip, p, items[0]), items[1..])
  }

  lemma {:induction false} LinesMean(ip: Ip, p: Parser, items: seq<Item>)
    requires forall k :: 0 <= k < |items| ==> ItemOk(items[k])
    ensures Feed(ip, p, Split(ItemLines(items), '\n')) == EffectOf(ip, p, items)
    decreases |items|
  {
    hide ItemText, Effect, ItemOk, Line;
    if items == [] {
      LastLine(ip, p);
    } else {
      var t, rest := ItemText(items[0]), ItemLines(items[1..]);
      ItemMeans(ip, p, items[0]);
      FirstLine(t, rest);
      LinesMean(ip, Effect(ip, p, items[0]), items[1..]);
      assert ([t + "\r"] + Split(rest, '\n'))[1..] == Split(rest, '\n');
    }
  }

  lemma LastLine(ip: Ip, p: Parser)
    ensures Feed(ip, p, Split("", '\n')) == p
  {
    assert Split("", '\n') == [""];
    assert Line(ip, p, "") == p;
    assert [""][1..] == [];
  }

  lemma FirstLine(t: string, rest: string)
    requires '\n' !in t
    ensures Split(t + "\r\n" + rest, '\n') == [t + "\r"] + Split(rest, '\n')
  {
    var s := t + "\r\n" + rest;
    assert s == (t + "\r") + ['\n'] + rest;
    IndexOfFirst(t + "\r", '\n', rest);
    assert s[..|t| + 1] == t + "\r" && s[|t| + 2..] == rest;
  }

  // ---------------------------------------------------------------- round trip

  predicate SdpOk(s: Sdp) {
    && s.port <= 65535
    && (forall i :: 0 <= i < |s.payloadTypes| ==> s.payloadTypes[i] <= 255)
    && (s.telephoneEvent.Some? ==> s.telephoneEvent.value <= 255)
    && (s.ptime.Some? ==> s.ptime.value <= 0xFFFF_FFFF)
  }

  predicate OriginOk(origin: string) {
    '\r' !in origin && '\n' !in origin
  }

  lemma {:induction false} EffectAppend(ip: Ip, p: Parser, a: seq<Item>, b: seq<Item>)
    ensures EffectOf(ip, p, a + b) == EffectOf(ip, EffectOf(ip, p, a), b)
    decreases |a|
  {
    hide Effect;
    if a == [] {
      assert a + b == b;
    } else {
      EffectAppend(ip, Effect(ip, p, a[0]), a[1..], b);
      assert (a + b)[1..] == a[1..] + b;
    }
  }

  lemma {:induction false} NumbersBack(ns: seq<nat>)
    requires forall i :: 0 <= i < |ns| ==> ns[i] <= 255
    ensures Numbers(Decimals(ns)) == ns
  {
    hide Decimal, ParseUnsigned;
    if ns != [] {
      ParseDecimal(ns[0], 255);
      NumbersBack(ns[1..]);
      assert Decimals(ns)[1..] == Decimals(ns[1..]);
    }
  }

  lemma {:induction false} MapsHaveNoEffect(ip: Ip, p: Parser, pts: seq<nat>)
    ensures EffectOf(ip, p, CodecMaps(pts)) == p
  {
    if pts != [] {
      MapsHaveNoEffect(ip, p, pts[1..]);
      if FromPayloadType(pts[0]).Some? {
        assert CodecMaps(pts)[1..] == CodecMaps(pts[1..]);
      }
    }
  }

  lemma {:induction false} MapsOk(pts: seq<nat>)
    requires forall i :: 0 <= i < |pts| ==> pts[i] <= 255
    ensures forall k :: 0 <= k < |CodecMaps(pts)| ==> ItemOk(CodecMaps(pts)[k])
  {
    if pts != [] {
      MapsOk(pts[1..]);
    }
  }

  lemma AudioWordsOk(s: Sdp)
    ensures WordsOk(AudioWords(s))
  {
    hide Decimal, NoSpace;
    DecimalWord(s.port);
    forall i | 0 <= i < |Listed(s)|
      ensures Decimals(Listed(s))[i] != "" && NoSpace(Decimals(Listed(s))[i])
    {
      DecimalWord(Listed(s)[i]);
    }
    assert NoSpace("audio") && NoSpace("RTP/AVP") by { FixedWords(); }
  }

  lemma FixedWords()
    ensures NoSpace("audio") && NoSpace("RTP/AVP") && NoSpace("IN") && NoSpace("IP4") && NoSpace("IP6")
  {
  }

  lemma AudioEffect(ip: Ip, p: Parser, s: Sdp)
    requires SdpOk(s) && p.payloadTypes == []
    ensures Effect(ip, p, Audio(AudioWords(s))) == p.(seenMedia := true, inAudio := true, port := s.port, payloadTypes := Listed(s))
  {
    hide Decimal, ParseUnsigned, Numbers;
    ParseDecimal(s.port, 65535);
    NumbersBack(Listed(s));
    assert AudioWords(s)[3..] == Decimals(Listed(s));
  }

  lemma ConnEffect(ip: Ip, p: Parser, a: nat)
    requires IpOk(ip) && !p.seenMedia
    ensures Effect(ip, p, Conn(["IN", IpVersion(ip, a), ip.show(a)])) == p.(address := Some(a))
    ensures WordsOk(["IN", IpVersion(ip, a), ip.show(a)])
  {
    hide NoSpace;
    var t := ip.show(a);
    assert ip.read(t) == Some(a) && '/' !in t;
    IndexOfNone(t, '/');
    assert Split(t, '/')[0] == t;
    FixedWords();
  }

  /** The first six lines: the address and the audio section. */
  function Leading(ip: Ip, s: Sdp, origin: string): seq<Item> {
    [Fixed('v', "0"), Fixed('o', origin), Fixed('s', "modem2sip"), Conn(["IN", IpVersion(ip, s.address), ip.show(s.address)]),
     Fixed('t', "0 0"), Audio(AudioWords(s))]
  }

  lemma LeadingEffect(ip: Ip, s: Sdp, origin: string)
    requires IpOk(ip) && SdpOk(s)
    ensures EffectOf(ip, EMPTY, Leading(ip, s, origin))
         == EMPTY.(address := Some(s.address), seenMedia := true, inAudio := true, port := s.port, payloadTypes := Listed(s))
  {
    hide IpOk, SdpOk, AudioWords, IpVersion, Listed, EffectOf, MediaLine, ReadIp, Connection;
    var c, m := Conn(["IN", IpVersion(ip, s.address), ip.show(s.address)]), Audio(AudioWords(s));
    var q := EMPTY.(address := Some(s.address));
    ConnEffect(ip, EMPTY, s.address);
    AudioEffect(ip, q, s);
    NoItems(ip, Effect(ip, q, m));
    EffectCons(ip, q, m, []);
    EffectCons(ip, q, Fixed('t', "0 0"), [m]);
    EffectCons(ip, EMPTY, c, [Fixed('t', "0 0"), m]);
    EffectCons(ip, EMPTY, Fixed('s', "modem2sip"), [c, Fixed('t', "0 0"), m]);
    EffectCons(ip, EMPTY, Fixed('o', origin), [Fixed('s', "modem2sip"), c, Fixed('t', "0 0"), m]);
    EffectCons(ip, EMPTY, Fixed('v', "0"), [Fixed('o', origin), Fixed('s', "modem2sip"), c, Fixed('t', "0 0"), m]);
    assert [m] + [] == [m] && [Fixed('t', "0 0")] + [m] == [Fixed('t', "0 0"), m];
    assert [c] + [Fixed('t', "0 0"), m] == [c, Fixed('t', "0 0"), m];
    assert [Fixed('s', "modem2sip")] + [c, Fixed('t', "0 0"), m] == [Fixed('s', "modem2sip"), c, Fixed('t', "0 0"), m];
    assert [Fixed('o', origin)] + [Fixed('s', "modem2sip"), c, Fixed('t', "0 0"), m]
        == [Fixed('o', origin), Fixed('s', "modem2sip"), c, Fixed('t', "0 0"), m];
    assert [Fixed('v', "0")] + [Fixed('o', origin), Fixed('s', "modem2sip"), c, Fixed('t', "0 0"), m] == Leading(ip, s, origin);
  }

  lemma NoItems(ip: Ip, p: Parser)
    ensures EffectOf(ip, p, []) == p
  {
  }

  lemma EffectCons(ip: Ip, p: Parser, i: Item, rest: seq<Item>)
    ensures EffectOf(ip, p, [i] + rest) == EffectOf(ip, Effect(ip, p, i), rest)
  {
    hide Effect;
    assert ([i] + rest)[1..] == rest;
  }

  lemma TrailingEffect(ip: Ip, p: Parser, s: Sdp)
    requires p.inAudio && p.telephoneEvent.None? && p.ptime.None?
    ensures EffectOf(ip, p, EventItems(s.telephoneEvent) + PtimeItems(s.ptime) + [Dir(s.direction)])
         == p.(telephoneEvent := s.telephoneEvent, ptime := s.ptime, direction := s.direction)
  {
    var a, b, c := EventItems(s.telephoneEvent), PtimeItems(s.ptime), [Dir(s.direction)];
    EffectAppend(ip, p, a + b, c);
    EffectAppend(ip, p, a, b);
    var q := p.(telephoneEvent := s.telephoneEvent);
    if s.telephoneEvent.Some? {
      var e, f := EventMap(s.telephoneEvent.value), EventFormat(s.telephoneEvent.value);
      EffectCons(ip, p, e, [f]);
      EffectCons(ip, q, f, []);
      assert [e] + [f] == a && [f] + [] == [f];
    }
    assert EffectOf(ip, p, a) == q;
    var r := q.(ptime := s.ptime);
    if s.ptime.Some? {
      assert b[1..] == [];
    }
    assert EffectOf(ip, q, b) == r;
    assert c[1..] == [];
  }

  lemma ItemsOk(ip: Ip, s: Sdp, origin: string)
    requires IpOk(ip) && SdpOk(s) && OriginOk(origin)
    ensures forall k :: 0 <= k < |Items(ip, s, origin)| ==> ItemOk(Items(ip, s, origin)[k])
  {
    hide IpOk, AudioWords, IpVersion, WordsOk, CodecMaps;
    ConnEffect(ip, EMPTY, s.address);
    AudioWordsOk(s);
    MapsOk(s.payloadTypes);
    LeadingOk(ip, s, origin);
    assert Items(ip, s, origin) == Leading(ip, s, origin) + CodecMaps(s.payloadTypes)
      + EventItems(s.telephoneEvent) + PtimeItems(s.ptime) + [Dir(s.direction)];
  }

  lemma LeadingOk(ip: Ip, s: Sdp, origin: string)
    requires OriginOk(origin) && WordsOk(AudioWords(s)) && WordsOk(["IN", IpVersion(ip, s.address), ip.show(s.address)])
    ensures forall k :: 0 <= k < |Leading(ip, s, origin)| ==> ItemOk(Leading(ip, s, origin)[k])
  {
    hide AudioWords, IpVersion, WordsOk;
    assert ItemOk(Fixed('v', "0")) && ItemOk(Fixed('o', origin)) && ItemOk(Fixed('s', "modem2sip")) && ItemOk(Fixed('t', "0 0"));
  }

  /** A rendered description is read back whole; its telephone-event type is also listed as a payload type. */
  lemma SdpRoundTrip(ip: Ip, s: Sdp, origin: string)
    requires IpOk(ip) && SdpOk(s) && OriginOk(origin)
    ensures ParseSdp(ip, Render(ip, s, origin)) == if Listed(s) == [] then None else Some(s.(payloadTypes := Listed(s)))
  {
    hide IpOk, SdpOk, OriginOk, Feed, Split, ItemLines, EffectOf, Listed, AudioWords, IpVersion, ItemOk;
    var a, m := Leading(ip, s, origin), CodecMaps(s.payloadTypes);
    var t := EventItems(s.telephoneEvent) + PtimeItems(s.ptime) + [Dir(s.direction)];
    ItemsOk(ip, s, origin);
    LinesMean(ip, EMPTY, Items(ip, s, origin));
    assert Items(ip, s, origin) == (a + m) + t;
    EffectAppend(ip, EMPTY, a + m, t);
    EffectAppend(ip, EMPTY, a, m);
    LeadingEffect(ip, s, origin);
    var p := EffectOf(ip, EMPTY, a);
    MapsHaveNoEffect(ip, p, s.payloadTypes);
    TrailingEffect(ip, p, s);
  }

  /** Whoever reads our answer picks the codec we named, sees our port, and the direction and event type we agreed. */
  lemma AnswerIsUnderstood(ip: Ip, offer: Sdp, address: nat, port: nat, codec: Codec, dtmfPt: Option<nat>, ptime: nat, origin: string)
    requires IpOk(ip) && OriginOk(origin) && SdpOk(Answer(offer, address, port, codec, dtmfPt, ptime))
    ensures var read := ParseSdp(ip, Render(ip, Answer(offer, address, port, codec, dtmfPt, ptime), origin));
            && read.Some? && Negotiate(read.value.payloadTypes) == Some(codec)
            && read.value.address == address && read.value.port == port
            && read.value.telephoneEvent == (if dtmfPt.Some? then offer.telephoneEvent else None)
            && read.value.direction == Reversed(offer.direction)
  {
    hide IpOk, OriginOk, SdpOk, ParseSdp, Render;
    SdpRoundTrip(ip, Answer(offer, address, port, codec, dtmfPt, ptime), origin);
  }

  // ------------------------------------------------------------------ the loop

  method ReadSdp(ip: Ip, text: string) returns (r: Option<Sdp>)
    ensures r == ParseSdp(ip, text)
  {
    hide Line, Split;
    var lines := Split(text, '\n');
    var p := EMPTY;
    for i := 0 to |lines|
      invariant Feed(ip, p, lines[i..]) == Feed(ip, EMPTY, lines)
    {
      assert lines[i..][1..] == lines[i + 1..];
      p := Line(ip, p, lines[i]);
    }
    r := Finish(p);
  }
}
