/**
 The linear resampler (src/audio/codec.rs), with exact positions: `pos` counts input samples
 times `to`, so that one output step is `from`.
 */
module Resampler {
  import AudioRings

  type Sample = AudioRings.Sample

  // --------------------------------------------------------------- one sample

  /** `num / den` rounded to the nearest integer, halves away from zero. */
  function Round(num: int, den: nat): int
    requires den > 0
  {
    if num >= 0 then (2 * num + den) / (2 * den) else -((-2 * num + den) / (2 * den))
  }

  function Clamp(v: int): Sample {
    if v < -0x8000 then -0x8000 else if v > 0x7FFF then 0x7FFF else v
  }

  /** `a + (b - a) * r / to`, before the clamp. */
  function Blend(a: Sample, b: Sample, r: nat, to: nat): int
    requires to > 0
  {
    Round(a * to + (b - a) * r, to)
  }

  lemma RoundBetween(num: int, den: nat, lo: int, hi: int)
    requires den > 0 && lo * den <= num <= hi * den
    ensures lo <= Round(num, den) <= hi
  {
    if num >= 0 {
      RoundUpTo(num, den, hi);
      if lo > 0 {
        RoundDownTo(num, den, lo);
      }
    } else {
      RoundUpTo(-num, den, -lo);
      if hi < 0 {
        RoundDownTo(-num, den, -hi);
      }
    }
  }

  lemma MulMono(a: int, b: int, c: nat)
    ensures a <= b ==> a * c <= b * c
  {
    if a <= b {
      assert b * c - a * c == (b - a) * c;
    }
  }

  lemma MulCancel(a: int, b: int, c: nat)
    requires a * c < b * c
    ensures a < b
  {
    MulMono(b, a, c);
  }

  lemma DivBounds(v: nat, c: nat)
    requires c > 0
    ensures v / c * c <= v < (v / c + 1) * c
  {
    assert v == v / c * c + v % c;
    assert (v / c + 1) * c == v / c * c + c;
  }

  lemma RoundUpTo(num: nat, den: nat, hi: int)
    requires den > 0 && num <= hi * den
    ensures 0 <= (2 * num + den) / (2 * den) <= hi
  {
    var q := (2 * num + den) / (2 * den);
    DivBounds(2 * num + den, 2 * den);
    assert (hi + 1) * (2 * den) == 2 * (hi * den) + 2 * den;
    MulCancel(q, hi + 1, 2 * den);
  }

  lemma RoundDownTo(num: nat, den: nat, lo: nat)
    requires den > 0 && lo * den <= num
    ensures lo <= (2 * num + den) / (2 * den)
  {
    var q := (2 * num + den) / (2 * den);
    DivBounds(2 * num + den, 2 * den);
    assert lo * (2 * den) == 2 * (lo * den);
    MulCancel(lo, q + 1, 2 * den);
  }

  /** Every sample lies between its two neighbours, so the clamp never acts. */
  lemma BlendIsBetween(a: Sample, b: Sample, r: nat, to: nat)
    requires r < to
    ensures a <= b ==> a <= Blend(a, b, r, to) <= b
    ensures b <= a ==> b <= Blend(a, b, r, to) <= a
    ensures Clamp(Blend(a, b, r, to)) == Blend(a, b, r, to)
  {
    hide Round;
    var num := a * to + (b - a) * r;
    assert a * to + (b - a) * to == b * to;
    if a <= b {
      Scale(b - a, r, to);
      RoundBetween(num, to, a, b);
    } else {
      Scale(a - b, r, to);
      assert (b - a) * r == -((a - b) * r) && (b - a) * to == -((a - b) * to);
      RoundBetween(num, to, b, a);
    }
  }

  lemma Scale(d: nat, r: nat, to: nat)
    requires r <= to
    ensures 0 <= d * r <= d * to
  {
    MulMono(r, to, d);
    assert d * r == r * d && d * to == to * d;
  }

  // ------------------------------------------------------------------- chunks

  datatype State = State(from: nat, to: nat, last: Sample, pos: nat)

  predicate Ok(s: State) {
    s.from > 0 && s.to > 0
  }

  function New(from: nat, to: nat): State {
    State(from, to, 0, 0)
  }

  /** Between sample `idx` and the one before it, which is `prev` at the front. */
  function Tap(prev: Sample, x: seq<Sample>, idx: nat, r: nat, to: nat): Sample
    requires idx < |x| && to > 0
  {
    Clamp(Blend(if idx == 0 then prev else x[idx - 1], x[idx], r, to))
  }

  /** The output at position `p` of a chunk. */
  function At(s: State, input: seq<Sample>, p: nat): Sample
    requires Ok(s) && p < |input| * s.to
  {
    IndexInRange(p, |input|, s.to);
    Tap(s.last, input, p / s.to, p % s.to, s.to)
  }

  lemma IndexInRange(p: nat, n: nat, to: nat)
    requires to > 0 && p < n * to
    ensures p / to < n
  {
    DivBounds(p, to);
    MulCancel(p / to, n, to);
  }

  function Emit(s: State, input: seq<Sample>, p: nat): seq<Sample>
    requires Ok(s)
    decreases if p < |input| * s.to then |input| * s.to - p else 0
  {
    if p < |input| * s.to then [At(s, input, p)] + Emit(s, input, p + s.from) else []
  }

  /** The first position at or past the end of the chunk. */
  function Past(s: State, len: nat, p: nat): (q: nat)
    requires Ok(s)
    ensures q >= len * s.to
    decreases if p < len * s.to then len * s.to - p else 0
  {
    if p < len * s.to then Past(s, len, p + s.from) else p
  }

  function Process(s: State, input: seq<Sample>): (State, seq<Sample>)
    requires Ok(s)
  {
    if s.from == s.to then (s, input)
    else (s.(pos := Past(s, |input|, s.pos) - |input| * s.to,
             last := if input == [] then s.last else input[|input| - 1]),
          Emit(s, input, s.pos))
  }

  // ---------------------------------------------------------------- reference

  /** How many outputs `n` inputs give: n * to / from, rounded up. */
  function Count(n: nat, from: nat, to: nat): nat
    requires from > 0
  {
    (n * to + from - 1) / from
  }

  lemma CountMeans(n: nat, from: nat, to: nat, k: nat)
    requires from > 0
    ensures k < Count(n, from, to) <==> k * from < n * to
  {
    var m := n * to + from - 1;
    var c := m / from;
    DivBounds(m, from);
    MulMono(k + 1, c, from);
    MulMono(c, k, from);
    assert (k + 1) * from == k * from + from && (c + 1) * from == c * from + from;
  }

  /** The `k`-th output of the whole stream `x`, interpolated at input position k * from / to. */
  function Output(x: seq<Sample>, from: nat, to: nat, k: nat): Sample
    requires from > 0 && to > 0 && k < Count(|x|, from, to)
  {
    CountMeans(|x|, from, to, k);
    IndexInRange(k * from, |x|, to);
    Tap(0, x, k * from / to, k * from % to, to)
  }

  /** Every sample of the output lies between the two input samples around its position, untouched by the clamp. */
  lemma OutputIsBetween(x: seq<Sample>, from: nat, to: nat, k: nat)
    requires from > 0 && to > 0 && k < Count(|x|, from, to)
    ensures var idx := k * from / to;
            && idx < |x|
            && var a, b, y := (if idx == 0 then 0 else x[idx - 1]), x[idx], Output(x, from, to, k);
            && (a <= b ==> a <= y <= b) && (b <= a ==> b <= y <= a)
            && y == Blend(a, b, k * from % to, to)
  {
    hide Blend, Clamp, Count;
    CountMeans(|x|, from, to, k);
    IndexInRange(k * from, |x|, to);
    var idx := k * from / to;
    BlendIsBetween(if idx == 0 then 0 else x[idx - 1], x[idx], k * from % to, to);
  }

  /** The whole resampled stream. */
  function Reference(x: seq<Sample>, from: nat, to: nat): (y: seq<Sample>)
    requires from > 0 && to > 0
    ensures |y| == if from == to then |x| else Count(|x|, from, to)
  {
    if from == to then x else seq(Count(|x|, from, to), k requires 0 <= k < Count(|x|, from, to) => Output(x, from, to, k))
  }

  function LastOf(x: seq<Sample>): Sample {
    if x == [] then 0 else x[|x| - 1]
  }

  /** The state after the stream `x`, however it was cut. */
  ghost predicate After(s: State, x: seq<Sample>) {
    && Ok(s)
    && (s.from != s.to ==> s.last == LastOf(x) && s.pos == Count(|x|, s.from, s.to) * s.from - |x| * s.to)
  }

  lemma DivUnique(v: nat, to: nat, q: nat, r: nat)
    requires r < to && v == q * to + r
    ensures v / to == q && v % to == r
  {
    DivBounds(v, to);
    assert (q + 1) * to == q * to + to;
    MulCancel(q, v / to + 1, to);
    MulCancel(v / to, q + 1, to);
  }

  lemma DivShift(p: nat, n: nat, to: nat)
    requires to > 0
    ensures (p + n * to) / to == p / to + n && (p + n * to) % to == p % to
  {
    var q, r := p / to, p % to;
    assert p == q * to + r;
    assert (q + n) * to == q * to + n * to;
    DivUnique(p + n * to, to, q + n, r);
  }

  lemma LengthAdds(x: seq<Sample>, input: seq<Sample>, to: nat)
    ensures |x + input| * to == |x| * to + |input| * to
  {
  }

  lemma OutputIs(x: seq<Sample>, from: nat, to: nat, k: nat, g: nat)
    requires from > 0 && to > 0 && g == k * from && g < |x| * to
    ensures k < Count(|x|, from, to) && g / to < |x| && Output(x, from, to, k) == Tap(0, x, g / to, g % to, to)
  {
    hide Count, Tap;
    CountMeans(|x|, from, to, k);
    IndexInRange(g, |x|, to);
  }

  /** A position of a chunk means the same as that position of the stream. */
  lemma SameSample(s: State, x: seq<Sample>, input: seq<Sample>, k: nat, p: nat)
    requires Ok(s) && s.last == LastOf(x) && p + |x| * s.to == k * s.from && p < |input| * s.to
    ensures k < Count(|x + input|, s.from, s.to) && At(s, input, p) == Output(x + input, s.from, s.to, k)
  {
    hide Count, Tap, Output;
    LengthAdds(x, input, s.to);
    OutputIs(x + input, s.from, s.to, k, p + |x| * s.to);
    DivShift(p, |x|, s.to);
    IndexInRange(p, |input|, s.to);
    TapShift(x, input, p / s.to, p % s.to, s.to);
  }

  lemma TapShift(x: seq<Sample>, input: seq<Sample>, idx: nat, r: nat, to: nat)
    requires idx < |input| && to > 0
    ensures Tap(LastOf(x), input, idx, r, to) == Tap(0, x + input, idx + |x|, r, to)
  {
    hide Clamp, Blend;
  }

  lemma {:induction false} EmitIsReference(s: State, x: seq<Sample>, input: seq<Sample>, k: nat, p: nat)
    requires After(s, x) && s.from != s.to && p + |x| * s.to == k * s.from && k <= Count(|x + input|, s.from, s.to)
    ensures Emit(s, input, p) == Reference(x + input, s.from, s.to)[k..]
    ensures Past(s, |input|, p) + |x| * s.to == Count(|x + input|, s.from, s.to) * s.from
    decreases if p < |input| * s.to then |input| * s.to - p else 0
  {
    hide Count, At, Output;
    var w := x + input;
    LengthAdds(x, input, s.to);
    CountMeans(|w|, s.from, s.to, k);
    if p < |input| * s.to {
      SameSample(s, x, input, k, p);
      assert (k + 1) * s.from == k * s.from + s.from;
      EmitIsReference(s, x, input, k + 1, p + s.from);
      var y := Reference(w, s.from, s.to);
      assert y[k..] == [y[k]] + y[k + 1..];
    }
  }

  lemma CountGrows(n: nat, m: nat, from: nat, to: nat)
    requires from > 0
    ensures Count(n, from, to) <= Count(n + m, from, to) && Count(n, from, to) * from >= n * to
  {
    hide Count;
    var c := Count(n, from, to);
    assert (n + m) * to == n * to + m * to;
    CountMeans(n, from, to, c);
    if c > 0 {
      CountMeans(n, from, to, c - 1);
      CountMeans(n + m, from, to, c - 1);
    }
  }

  /** One call extends the reference: what it puts out is the part that the new input adds. */
  lemma ProcessExtends(s: State, x: seq<Sample>, input: seq<Sample>)
    requires After(s, x)
    ensures var (t, y) := Process(s, input);
            && After(t, x + input) && t.from == s.from && t.to == s.to
            && Reference(x + input, s.from, s.to) == Reference(x, s.from, s.to) + y
  {
    hide Count, Output, Emit, Past;
    if s.from != s.to {
      var w := x + input;
      var k := Count(|x|, s.from, s.to);
      CountGrows(|x|, |input|, s.from, s.to);
      EmitIsReference(s, x, input, k, s.pos);
      LengthAdds(x, input, s.to);
      PrefixOfReference(x, input, s.from, s.to);
      var y := Reference(w, s.from, s.to);
      assert y == y[..k] + y[k..];
    }
  }

  /** More input never changes samples that are already out. */
  lemma PrefixOfReference(x: seq<Sample>, input: seq<Sample>, from: nat, to: nat)
    requires from > 0 && to > 0 && from != to
    ensures Count(|x|, from, to) <= Count(|x + input|, from, to)
    ensures Reference(x + input, from, to)[..Count(|x|, from, to)] == Reference(x, from, to)
  {
    hide Count;
    CountGrows(|x|, |input|, from, to);
    var a, b := Reference(x + input, from, to), Reference(x, from, to);
    forall k | 0 <= k < |b|
      ensures a[k] == b[k]
    {
      CountMeans(|x|, from, to, k);
      IndexInRange(k * from, |x|, to);
    }
  }

  // ------------------------------------------------------------- whole streams

  function Concat(chunks: seq<seq<Sample>>): seq<Sample> {
    if chunks == [] then [] else Concat(chunks[..|chunks| - 1]) + chunks[|chunks| - 1]
  }

  /** The state and all output after the chunks, in order. */
  function Feed(from: nat, to: nat, chunks: seq<seq<Sample>>): (r: (State, seq<Sample>))
    requires from > 0 && to > 0
    ensures Ok(r.0)
  {
    if chunks == [] then (New(from, to), [])
    else
      var (s, y) := Feed(from, to, chunks[..|chunks| - 1]);
      var (t, z) := Process(s, chunks[|chunks| - 1]);
      (t, y + z)
  }

  /** However a stream is cut into chunks, the output is that of the whole stream. */
  lemma {:induction false} ChunksDoNotMatter(from: nat, to: nat, chunks: seq<seq<Sample>>)
    requires from > 0 && to > 0
    ensures var (s, y) := Feed(from, to, chunks);
            After(s, Concat(chunks)) && s.from == from && s.to == to && y == Reference(Concat(chunks), from, to)
    decreases |chunks|
  {
    if chunks == [] {
      NothingYet(from, to);
    } else {
      hide After, Process, Reference;
      var before := chunks[..|chunks| - 1];
      ChunksDoNotMatter(from, to, before);
      var (s, y) := Feed(from, to, before);
      ProcessExtends(s, Concat(before), chunks[|chunks| - 1]);
    }
  }

  lemma NothingYet(from: nat, to: nat)
    requires from > 0 && to > 0
    ensures Count(0, from, to) == 0 && After(New(from, to), []) && Reference([], from, to) == []
  {
    hide Count;
    CountMeans(0, from, to, 0);
  }

  // ----------------------------------------------------------------- in place

  class InPlace {
    const from: nat
    const to: nat
    var last: Sample
    var pos: nat

    ghost function View(): State
      reads this
    {
      State(from, to, last, pos)
    }

    constructor (from: nat, to: nat)
      ensures View() == New(from, to)
    {
      this.from := from;
      this.to := to;
      last, pos := 0, 0;
    }

    method Run(input: seq<Sample>) returns (out: seq<Sample>)
      requires Ok(View())
      modifies this
      ensures (View(), out) == Process(old(View()), input)
    {
      hide Tap, Emit, Past;
      out := [];
      if from == to { return input; }
      ghost var s := View();
      var p, end := pos, |input| * to;
      while p < end
        invariant View() == s
        invariant out + Emit(s, input, p) == Emit(s, input, s.pos)
        invariant Past(s, |input|, p) == Past(s, |input|, s.pos)
        decreases end - p
      {
        IndexInRange(p, |input|, to);
        var v := Tap(last, input, p / to, p % to, to);
        EmitStep(s, input, p);
        assert out + ([v] + Emit(s, input, p + from)) == out + [v] + Emit(s, input, p + from);
        out := out + [v];
        p := p + from;
      }
      EmitEnd(s, input, p);
      assert out + [] == out;
      pos := p - end;
      if input != [] {
        last := input[|input| - 1];
      }
    }
  }

  lemma EmitStep(s: State, input: seq<Sample>, p: nat)
    requires Ok(s) && p < |input| * s.to
    ensures Emit(s, input, p) == [At(s, input, p)] + Emit(s, input, p + s.from)
    ensures Past(s, |input|, p) == Past(s, |input|, p + s.from)
  {
    hide At;
  }

  lemma EmitEnd(s: State, input: seq<Sample>, p: nat)
    requires Ok(s) && p >= |input| * s.to
    ensures Emit(s, input, p) == [] && Past(s, |input|, p) == p
  {
  }
}
