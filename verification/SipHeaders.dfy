/**
 The parts of src/sip/message.rs that change things step by step: the header list and its edits,
 and the loops of the printer and the parser, each proved against its function in SipMessage.
 */
module SipHeaders {
  import opened Util
  import opened Text
  import opened SipMessage

  // ------------------------------------------------------------ edits as values

  function Values(hs: seq<Header>, canon: string): seq<string> {
    if hs == [] then []
    else if hs[0].name == canon then [hs[0].value] + Values(hs[1..], canon)
    else Values(hs[1..], canon)
  }

  function GetAll(hs: seq<Header>, name: string): seq<string> {
    Values(hs, Canonical(name))
  }

  function Without(hs: seq<Header>, canon: string): seq<Header> {
    if hs == [] then []
    else if hs[0].name == canon then Without(hs[1..], canon)
    else [hs[0]] + Without(hs[1..], canon)
  }

  function ReplacedFirst(hs: seq<Header>, canon: string, value: string): seq<Header> {
    if hs == [] then [Header(canon, value)]
    else if hs[0].name == canon then [Header(canon, value)] + hs[1..]
    else [hs[0]] + ReplacedFirst(hs[1..], canon, value)
  }

  // --------------------------------------------------- what the edits do to reads

  lemma {:induction false} ValuesAppend(a: seq<Header>, b: seq<Header>, canon: string)
    ensures Values(a + b, canon) == Values(a, canon) + Values(b, canon)
  {
    if a == [] {
      assert a + b == b;
    } else {
      ValuesAppend(a[1..], b, canon);
      assert (a + b)[1..] == a[1..] + b;
    }
  }

  lemma {:induction false} WithoutValues(hs: seq<Header>, canon: string, other: string)
    ensures Values(Without(hs, canon), other) == if other == canon then [] else Values(hs, other)
  {
    if hs != [] {
      WithoutValues(hs[1..], canon, other);
      if hs[0].name != canon {
        assert Without(hs, canon)[1..] == Without(hs[1..], canon);
      }
    }
  }

  lemma OneValue(h: Header, canon: string)
    ensures Values([h], canon) == if h.name == canon then [h.value] else []
  {
    assert [h][1..] == [];
  }

  /** After `set` there is one value of that name, and every other name reads as before. */
  lemma SetReads(hs: seq<Header>, name: string, value: string, other: string)
    ensures var now := Without(hs, Canonical(name)) + [Header(Canonical(name), value)];
            GetAll(now, other) == if Canonical(other) == Canonical(name) then [value] else GetAll(hs, other)
  {
    hide Canonical;
    var n, o := Canonical(name), Canonical(other);
    WithoutValues(hs, n, o);
    ValuesAppend(Without(hs, n), [Header(n, value)], o);
    OneValue(Header(n, value), o);
  }

  /** Replacing the first occurrence keeps the rest of that name's list, every other name, and all positions. */
  lemma {:induction false} ReplaceFirstReads(hs: seq<Header>, canon: string, value: string, other: string)
    ensures var now := ReplacedFirst(hs, canon, value); var was := Values(hs, canon);
            && Values(now, canon) == [value] + (if was == [] then [] else was[1..])
            && (other != canon ==> Values(now, other) == Values(hs, other))
            && (was != [] ==> |now| == |hs| && forall i :: 0 <= i < |hs| ==> now[i].name == hs[i].name)
  {
    var now := ReplacedFirst(hs, canon, value);
    if hs == [] {
      OneValue(Header(canon, value), canon);
      OneValue(Header(canon, value), other);
    } else if hs[0].name == canon {
      assert now[1..] == hs[1..];
    } else {
      ReplaceFirstReads(hs[1..], canon, value, other);
      assert now[1..] == ReplacedFirst(hs[1..], canon, value);
      assert Values(hs, canon) == Values(hs[1..], canon);
    }
  }

  lemma {:induction false} FindIsFirst(hs: seq<Header>, canon: string)
    ensures Find(hs, canon) == if Values(hs, canon) == [] then None else Some(Values(hs, canon)[0])
  {
    if hs != [] {
      FindIsFirst(hs[1..], canon);
    }
  }

  // -------------------------------------------------------------- the header list

  class Headers {
    var list: seq<Header>

    constructor ()
      ensures list == []
    {
      list := [];
    }

    method GetFirst(name: string) returns (v: Option<string>)
      ensures v == Get(list, name)
    {
      var n := Canonical(name);
      for i := 0 to |list|
        invariant Find(list, n) == Find(list[i..], n)
      {
        if list[i].name == n { return Some(list[i].value); }
        assert list[i..][1..] == list[i + 1..];
      }
      return None;
    }

    method Every(name: string) returns (vs: seq<string>)
      ensures vs == GetAll(list, name)
    {
      hide Canonical;
      var n := Canonical(name);
      vs := [];
      for i := 0 to |list|
        invariant vs + Values(list[i..], n) == Values(list, n)
      {
        assert list[i..][1..] == list[i + 1..];
        if list[i].name == n {
          assert vs + Values(list[i..], n) == vs + [list[i].value] + Values(list[i + 1..], n);
          vs := vs + [list[i].value];
        }
      }
    }

    method Remove(name: string)
      modifies this
      ensures list == Without(old(list), Canonical(name))
    {
      hide Canonical;
      var n := Canonical(name);
      var kept: seq<Header> := [];
      for i := 0 to |list|
        invariant list == old(list)
        invariant kept + Without(list[i..], n) == Without(list, n)
      {
        assert list[i..][1..] == list[i + 1..];
        if list[i].name != n {
          assert kept + Without(list[i..], n) == kept + [list[i]] + Without(list[i + 1..], n);
          kept := kept + [list[i]];
        }
      }
      list := kept;
    }

    method Set(name: string, value: string)
      modifies this
      ensures list == Without(old(list), Canonical(name)) + [Header(Canonical(name), value)]
      ensures Get(list, name) == Some(value) && GetAll(list, name) == [value]
      ensures forall other :: Canonical(other) != Canonical(name) ==> GetAll(list, other) == GetAll(old(list), other)
    {
      hide Canonical, Find, Values;
      ghost var was := list;
      Remove(name);
      list := list + [Header(Canonical(name), value)];
      forall other
        ensures GetAll(list, other) == if Canonical(other) == Canonical(name) then [value] else GetAll(was, other)
      {
        SetReads(was, name, value, other);
      }
      FindIsFirst(list, Canonical(name));
    }

    method Push(name: string, value: string)
      modifies this
      ensures list == old(list) + [Header(Canonical(name), value)]
      ensures GetAll(list, name) == GetAll(old(list), name) + [value]
    {
      hide Canonical, Values;
      ghost var was := list;
      list := list + [Header(Canonical(name), value)];
      ValuesAppend(was, [Header(Canonical(name), value)], Canonical(name));
      OneValue(Header(Canonical(name), value), Canonical(name));
    }

    /** A response must carry the request's Via list unchanged apart from the topmost entry. */
    method ReplaceFirst(name: string, value: string)
      modifies this
      ensures list == ReplacedFirst(old(list), Canonical(name), value)
    {
      hide Canonical;
      var n := Canonical(name);
      for i := 0 to |list|
        invariant list == old(list)
        invariant ReplacedFirst(list, n, value) == list[..i] + ReplacedFirst(list[i..], n, value)
      {
        if list[i].name == n {
          assert list[..i] + ([Header(n, value)] + list[i..][1..]) == list[i := Header(n, value)];
          list := list[i := Header(n, value)];
          return;
        }
        assert list[i..][1..] == list[i + 1..];
        assert list[..i] + ([list[i]] + ReplacedFirst(list[i + 1..], n, value)) == list[..i + 1] + ReplacedFirst(list[i + 1..], n, value);
      }
      list := list + [Header(n, value)];
    }
  }

  // ----------------------------------------------------------------- the loops

  lemma TitledStep(out: string, canon: string, i: nat, upper: bool)
    requires i < |canon|
    ensures out + Titled(canon[i..], upper)
         == (out + [if upper then UpperChar(canon[i]) else canon[i]]) + Titled(canon[i + 1..], canon[i] == '-')
  {
    hide UpperChar;
    assert canon[i..][1..] == canon[i + 1..];
  }

  method PrettyLoop(canon: string) returns (out: string)
    ensures out == Titled(canon, true)
  {
    hide Titled, UpperChar;
    out := "";
    var upper := true;
    assert canon[0..] == canon;
    for i := 0 to |canon|
      invariant out + Titled(canon[i..], upper) == Titled(canon, true)
    {
      var ch := canon[i];
      TitledStep(out, canon, i, upper);
      out := out + [if upper then UpperChar(ch) else ch];
      upper := ch == '-';
    }
    assert canon[|canon|..] == "";
  }

  method UnfoldLoop(head: string) returns (out: string)
    ensures out == Unfold(head)
  {
    hide Lines, Split, Join;
    var lines := Split(Join(Lines(head), '\n'), '\n');
    out := lines[0];
    for i := 1 to |lines|
      invariant out + UnfoldRest(lines[i..]) == Unfold(head)
    {
      assert lines[i..][1..] == lines[i + 1..];
      var add := if IsFold(lines[i]) then " " + TrimStart(lines[i]) else CRLF + lines[i];
      assert out + UnfoldRest(lines[i..]) == out + add + UnfoldRest(lines[i + 1..]);
      out := out + add;
    }
  }

  /** Writes the length where it stood, or at the end when it was missing. */
  method SerializeLoop(start: string, hs: seq<Header>, body: string) returns (wire: string)
    ensures wire == Serialize(start, hs, body)
  {
    hide LineOf, LengthLine, HeaderSafe, LengthKey, HasLength;
    var head := HeaderSafe(start) + CRLF;
    var wroteLength := false;
    ghost var lines := HeadLines(start, hs, body);
    assert lines[0] == HeaderSafe(start);
    for i := 0 to |hs|
      invariant head + Ended(lines[i + 1..]) == Ended(lines)
      invariant wroteLength <==> exists k :: 0 <= k < i && hs[k].name == LengthKey()
    {
      assert lines[i + 1] == LineOf(hs[i], body) && lines[i + 1..][1..] == lines[i + 2..];
      assert head + Ended(lines[i + 1..]) == head + LineOf(hs[i], body) + CRLF + Ended(lines[i + 2..]);
      if hs[i].name == LengthKey() {
        wroteLength := true;
      }
      head := head + LineOf(hs[i], body) + CRLF;
    }
    assert wroteLength == HasLength(hs) by { LengthWritten(hs); }
    ghost var last := lines[|hs| + 1..];
    if !wroteLength {
      assert last == [LengthLine(body)] && last[1..] == [];
      head := head + LengthLine(body) + CRLF;
    } else {
      assert last == [];
    }
    assert head == Ended(lines);
    wire := head + CRLF + body;
  }

  lemma LengthWritten(hs: seq<Header>)
    ensures HasLength(hs) <==> exists k :: 0 <= k < |hs| && hs[k].name == LengthKey()
  {
  }

  /** Blank line, unfolding, one header per line, and the body cut to its announced length. */
  method ReceiveMessage(wire: string) returns (m: Option<Message>)
    ensures m == ParseMessage(wire)
  {
    hide FindBody, Lines, Unfold, NonEmpty, FlatMap, HeaderLine, Assemble;
    var (end, start) := FindBody(wire);
    var head := UnfoldLoop(wire[..end]);
    var lines := NonEmpty(Lines(head));
    if lines == [] { return None; }
    var headers := FlatMapLoop(lines[1..], HeaderLine);
    m := Assemble(lines[0], headers, wire[start..]);
  }
}
