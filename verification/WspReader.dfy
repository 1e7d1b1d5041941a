/**
 The reader and writers of src/mms/wsp.rs in their own form: a cursor that its methods move,
 and loops that append to a buffer.  Each is proved against the function in Wsp it computes.
 */
module WspReader {
  import opened Util
  import opened Wsp

  class Reader {
    const data: Bytes
    var pos: nat

    predicate Valid()
      reads this
    {
      pos <= |data|
    }

    constructor (data: Bytes)
      ensures Valid() && this.data == data && pos == 0
    {
      this.data := data;
      pos := 0;
    }

    method GetU8() returns (v: Option<byte>)
      requires Valid()
      modifies this
      ensures Valid() && Read(v, pos) == U8(data, old(pos))
    {
      if pos == |data| { return None; }
      v := Some(data[pos]);
      pos := pos + 1;
    }

    method GetTake(n: nat) returns (v: Option<Bytes>)
      requires Valid()
      modifies this
      ensures Valid() && Read(v, pos) == Take(data, old(pos), n)
    {
      if |data| - pos < n { return None; }
      v := Some(data[pos..pos + n]);
      pos := pos + n;
    }

    method GetUintvar() returns (v: Option<nat>)
      requires Valid()
      modifies this
      ensures Valid() && Read(v, pos) == Uintvar(data, old(pos))
    {
      var value: nat := 0;
      for i := 0 to 8
        invariant Valid()
        invariant UintvarFrom(data, pos, value, 8 - i) == Uintvar(data, old(pos))
      {
        if pos == |data| { return None; }
        var b := data[pos];
        pos := pos + 1;
        value := value * 128 + (if b < 128 then b else b - 128);
        if b < 128 { return Some(value); }
      }
      return None;
    }

    method GetTextString() returns (v: Option<Bytes>)
      requires Valid()
      modifies this
      ensures Valid() && Read(v, pos) == TextString(data, old(pos))
    {
      if pos < |data| && data[pos] == 0x7F {
        pos := pos + 1;
      }
      var start := pos;
      while pos < |data|
        invariant start <= pos <= |data|
        invariant NulAt(data, pos) == NulAt(data, start)
      {
        if data[pos] == 0 {
          v := Some(data[start..pos]);
          pos := pos + 1;
          return;
        }
        pos := pos + 1;
      }
      if start < |data| {
        pos := |data|;
        return Some(data[start..]);
      }
      return None;
    }

    method GetValueLength() returns (v: Option<nat>)
      requires Valid()
      modifies this
      ensures Valid() && Read(v, pos) == ValueLength(data, old(pos))
    {
      if pos == |data| { return None; }
      var b := data[pos];
      if b <= 30 {
        pos := pos + 1;
        v := Some(b);
      } else if b == 0x1F {
        pos := pos + 1;
        v := GetUintvar();
      } else {
        v := None;
      }
    }

    method GetBoundedValueLength() returns (v: Option<nat>)
      requires Valid()
      modifies this
      ensures Valid() && Read(v, pos) == BoundedValueLength(data, old(pos))
    {
      v := GetValueLength();
      if v.Some? && v.value >= |data| - pos {
        v := Some(|data| - pos);
      }
    }

    method GetLongInt() returns (v: Option<nat>)
      requires Valid()
      modifies this
      ensures Valid() && Read(v, pos) == LongInt(data, old(pos))
    {
      var len := GetU8();
      if len.None? || len.value == 0 || len.value > 8 { return None; }
      var bytes := GetTake(len.value);
      if bytes.None? { return None; }
      var acc: nat := 0;
      for i := 0 to |bytes.value|
        invariant acc == BigEndian(bytes.value[..i])
      {
        assert bytes.value[..i + 1][..i] == bytes.value[..i];
        acc := acc * 256 + bytes.value[i];
      }
      assert bytes.value[..|bytes.value|] == bytes.value;
      return Some(acc);
    }

    method GetIntegerValue() returns (v: Option<nat>)
      requires Valid()
      modifies this
      ensures Valid() && Read(v, pos) == IntegerValue(data, old(pos))
    {
      if pos == |data| { return None; }
      var b := data[pos];
      if b >= 128 {
        pos := pos + 1;
        v := Some(b - 128);
      } else {
        v := GetLongInt();
      }
    }

    method GetEncodedString() returns (v: Option<EncText>)
      requires Valid()
      modifies this
      ensures Valid() && Read(v, pos) == EncodedString(data, old(pos))
    {
      if pos == |data| { return None; }
      if data[pos] >= 0x20 {
        var t := GetTextString();
        return if t.Some? then Some(Plain(t.value)) else None;
      }
      var len := GetBoundedValueLength();
      if len.None? { return None; }
      var end := pos + len.value;
      var text := CountedTextOf(data[pos..end]);
      pos := end;
      return Some(text);
    }

    static method CountedTextOf(block: Bytes) returns (text: EncText)
      ensures text == CountedText(block)
    {
      var inner := new Reader(block);
      var mib := inner.GetIntegerValue();
      var c := CharsetFor(if mib.Some? then AsU32(mib.value) else 106);
      text := EncText(c, CutTerminator(c, inner.data[inner.pos..]));
    }

    method GetParameter() returns (v: Option<(Bytes, EncText)>)
      requires Valid()
      modifies this
      ensures Valid() && Read(v, pos) == Parameter(data, old(pos))
    {
      hide TextString, EncodedString, ParamValue, ParamName, Ascii;
      var b := GetU8();
      if b.None? { return None; }
      if b.value < 128 {
        pos := pos - 1;
        var name := GetTextString();
        if name.None? { return None; }
        var e := GetEncodedString();
        return Some((name.value, if e.Some? then e.value else Plain([])));
      }
      var value := GetParamValue(b.value - 128);
      return Some((Ascii(ParamName(b.value - 128)), value));
    }

    method GetParamValue(code: nat) returns (value: EncText)
      requires Valid()
      modifies this
      ensures Valid() && Read(Some(value), pos) == ParamValue(code, data, old(pos))
    {
      if code == 0x10 {
        value := Plain([]);
      } else if code == 0x00 {
        var n := GetUintvar();
        value := NumberText(Read(n, pos));
      } else if code == 0x02 || code == 0x0E || code == 0x16 {
        var n := GetIntegerValue();
        value := NumberText(Read(n, pos));
      } else if code == 0x01 {
        if pos < |data| && (data[pos] >= 128 || data[pos] < 0x20) {
          var n := GetIntegerValue();
          value := if n.Some? then Plain(Ascii(CharsetName(CharsetFor(AsU32(n.value))))) else Plain([]);
        } else {
          var t := GetTextString();
          value := Plain(if t.Some? then t.value else []);
        }
      } else {
        var e := GetEncodedString();
        value := if e.Some? then e.value else Plain([]);
      }
    }

    method GetContentType() returns (v: Option<(Bytes, Params)>)
      requires Valid()
      modifies this
      ensures Valid() && Read(v, pos) == ContentType(data, old(pos))
    {
      if pos == |data| { return None; }
      if data[pos] >= 0x20 {
        var t := GetBareType();
        return if t.Some? then Some((t.value, [])) else None;
      }
      var len := GetBoundedValueLength();
      if len.None? { return None; }
      var end := pos + len.value;
      v := CountedTypeOf(data[pos..end]);
      pos := end;
    }

    static method CountedTypeOf(block: Bytes) returns (v: Option<(Bytes, Params)>)
      ensures v == CountedType(block)
    {
      var inner := new Reader(block);
      var name := inner.GetInnerType();
      if name.None? { return None; }
      var params := inner.GetParameterList();
      return Some((name.value, params));
    }

    method GetInnerType() returns (v: Option<Bytes>)
      requires Valid() && pos == 0
      modifies this
      ensures Valid() && Read(v, pos) == InnerType(data)
    {
      if pos == |data| { return None; }
      v := GetBareType();
    }

    method GetBareType() returns (v: Option<Bytes>)
      requires pos < |data|
      modifies this
      ensures Valid() && Read(v, pos) == BareType(data, old(pos))
    {
      var b := data[pos];
      if b >= 128 {
        pos := pos + 1;
        return Some(ContentTypeName(b - 128));
      }
      v := GetTextString();
    }

    /** Every turn consumes input, so the list ends. */
    method GetParameterList() returns (params: Params)
      requires Valid()
      modifies this
      ensures Valid() && params == ParameterList(data, old(pos))
    {
      hide ParameterList, Parameter;
      params := [];
      ghost var all := ParameterList(data, pos);
      assert [] + all == all;
      while pos < |data|
        invariant Valid() && all == params + ParameterList(data, pos)
        decreases |data| - pos
      {
        ParameterListStep(data, pos);
        var p := GetParameter();
        if p.None? {
          assert params + [] == params;
          return;
        }
        assert params + ([p.value] + ParameterList(data, pos)) == (params + [p.value]) + ParameterList(data, pos);
        params := params + [p.value];
      }
      ParameterListStep(data, pos);
      assert params + [] == params;
    }

    method GetSkipValue() returns (v: Option<()>)
      requires Valid()
      modifies this
      ensures Valid() && Read(v, pos) == SkipValue(data, old(pos))
    {
      if pos == |data| { return None; }
      var b := data[pos];
      if b <= 0x1F {
        var len := GetBoundedValueLength();
        if len.None? { return None; }
        var _ := GetTake(len.value);
        v := Some(());
      } else if b >= 128 {
        pos := pos + 1;
        v := Some(());
      } else {
        var t := GetTextString();
        v := if t.Some? then Some(()) else None;
      }
    }
  }

  // ------------------------------------------------------------------ writers

  /** Groups of seven bits, with the continuation bit set on all but the last. */
  function Flagged(groups: Bytes): Bytes {
    if |groups| <= 1 then groups
    else [if groups[0] < 128 then groups[0] + 128 else groups[0]] + Flagged(groups[1..])
  }

  method AppendGroups(out: Bytes, groups: Bytes) returns (r: Bytes)
    requires forall g <- groups :: g < 128
    ensures r == out + Flagged(groups)
  {
    r := out;
    for n := 0 to |groups|
      invariant r + Flagged(groups[n..]) == out + Flagged(groups)
    {
      assert groups[n] in groups && groups[n..][1..] == groups[n + 1..];
      r := r + [if n == |groups| - 1 then groups[n] else groups[n] + 128];
    }
  }

  /** The next group down moves from the number to the front of the groups. */
  lemma GroupStep(value: nat, groups: Bytes)
    requires value > 0 && groups != []
    ensures UintvarHigh(value) != [] && |UintvarHigh(value / 128)| == |UintvarHigh(value)| - 1
    ensures UintvarHigh(value) + Flagged(groups) == UintvarHigh(value / 128) + Flagged([value % 128] + groups)
  {
    assert ([value % 128] + groups)[1..] == groups;
    assert UintvarHigh(value) + Flagged(groups) == UintvarHigh(value / 128) + ([128 + value % 128] + Flagged(groups));
  }

  lemma GroupsAtStart(v: nat)
    requires v < 0x1_0000_0000_0000_0000
    ensures |UintvarHigh(v / 128)| <= 9 && UintvarHigh(v / 128) + Flagged([v % 128]) == UintvarBytes(v)
  {
    assert v / 128 < Pow(128, 9) by {
      assert Pow(128, 9) == 0x8000_0000_0000_0000;
    }
    UintvarHighLength(v / 128, 9);
  }

  lemma GroupsAtEnd(groups: Bytes)
    ensures UintvarHigh(0) + Flagged(groups) == Flagged(groups)
  {
  }

  /** Fills a ten-byte scratch buffer from the end, then appends the part that was used. */
  method WriteUintvar(out: Bytes, v: nat) returns (r: Bytes)
    requires v < 0x1_0000_0000_0000_0000
    ensures r == out + UintvarBytes(v)
  {
    hide UintvarHigh, UintvarBytes, Flagged;
    var bytes := new byte[10];
    var i := 9;
    bytes[9] := v % 128;
    var value: nat := v / 128;
    GroupsAtStart(v);
    assert bytes[9..] == [v % 128];
    while value != 0
      invariant 0 <= i <= 9 && |UintvarHigh(value)| <= i
      invariant forall k :: i <= k < 10 ==> bytes[k] < 128
      invariant UintvarHigh(value) + Flagged(bytes[i..]) == UintvarBytes(v)
      decreases value
    {
      ghost var groups := bytes[i..];
      GroupStep(value, groups);
      i := i - 1;
      bytes[i] := value % 128;
      assert bytes[i..] == [value % 128] + groups;
      value := value / 128;
    }
    GroupsAtEnd(bytes[i..]);
    r := AppendGroups(out, bytes[i..]);
  }

  method WriteTextString(out: Bytes, text: Bytes) returns (r: Bytes)
    ensures r == out + TextBytes(text)
  {
    r := out;
    if text != [] && text[0] >= 128 {
      r := r + [0x7F];
    }
    r := r + text;
    r := r + [0];
  }

  method WriteValueLength(out: Bytes, len: nat) returns (r: Bytes)
    requires len < 0x1_0000_0000_0000_0000
    ensures r == out + ValueLengthBytes(len)
  {
    if len <= 30 {
      r := out + [len];
    } else {
      r := WriteUintvar(out + [0x1F], len);
    }
  }

  method WriteLongInt(out: Bytes, value: nat) returns (r: Bytes)
    requires value < 0x1_0000_0000_0000_0000
    ensures r == out + LongIntBytes(value)
  {
    var bytes: Bytes := [];
    var v := value;
    while v > 0
      invariant BigEndianBytes(v) + bytes == BigEndianBytes(value)
    {
      assert BigEndianBytes(v) + bytes == BigEndianBytes(v / 256) + ([v % 256] + bytes);
      bytes := [v % 256] + bytes;
      v := v / 256;
    }
    BigEndianLength(value, 8);
    if bytes == [] {
      bytes := [0];
    }
    r := out + [|bytes|] + bytes;
  }

  method WriteIntegerValue(out: Bytes, value: nat) returns (r: Bytes)
    requires value < 0x1_0000_0000_0000_0000
    ensures r == out + IntegerBytes(value)
  {
    if value <= 127 {
      r := out + [128 + value];
    } else {
      r := WriteLongInt(out, value);
    }
  }

  method WriteEncodedString(out: Bytes, text: Bytes) returns (r: Bytes)
    requires |text| + 2 < 0x1_0000_0000_0000_0000
    ensures r == out + EncodedBytes(text)
  {
    if IsAscii(text) {
      r := WriteTextString(out, text);
      return;
    }
    var inner := WriteIntegerValue([], UTF8_MIB);
    inner := inner + text;
    inner := inner + [0];
    assert inner == Utf8Inner(text);
    r := WriteValueLength(out, |inner|);
    assert out + Counted(inner) == r + inner;
    r := r + inner;
  }
}
