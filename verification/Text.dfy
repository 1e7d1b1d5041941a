/** The string operations of the Rust standard library that the parsers use, with the laws the printers need. */
module Text {
  import opened Util

  // ------------------------------------------------------------------ numbers

  function DigitChar(d: nat): (c: char)
    requires d < 10
    ensures '0' <= c <= '9'
  {
    ('0' as int + d) as char
  }

  predicate IsDigit(c: char) {
    '0' <= c <= '9'
  }

  predicate AllDigits(s: string) {
    forall c <- s :: IsDigit(c)
  }

  /** Decimal rendering, as `to_string` of an unsigned integer. */
  function Decimal(n: nat): (s: string)
    ensures s != [] && AllDigits(s)
  {
    if n < 10 then [DigitChar(n)] else Decimal(n / 10) + [DigitChar(n % 10)]
  }

  function DecimalValue(s: string): nat
    requires AllDigits(s)
  {
    if s == [] then 0
    else
      assert IsDigit(s[|s| - 1]);
      10 * DecimalValue(s[..|s| - 1]) + (s[|s| - 1] as int - '0' as int)
  }

  /** `str::parse` of an unsigned integer with the given largest value. */
  function ParseUnsigned(s: string, max: nat): Option<nat> {
    var digits := if s != [] && s[0] == '+' then s[1..] else s;
    if digits == [] || !AllDigits(digits) || DecimalValue(digits) > max then None else Some(DecimalValue(digits))
  }

  lemma {:induction false} DecimalRoundTrip(n: nat)
    ensures DecimalValue(Decimal(n)) == n
  {
    if n >= 10 {
      DecimalRoundTrip(n / 10);
      var s := Decimal(n);
      assert s[..|s| - 1] == Decimal(n / 10);
    }
  }

  lemma ParseDecimal(n: nat, max: nat)
    requires n <= max
    ensures ParseUnsigned(Decimal(n), max) == Some(n)
  {
    DecimalRoundTrip(n);
    assert IsDigit(Decimal(n)[0]);
  }

  // ---------------------------------------------------------------- splitting

  /** Index of the first `c`, or the length. */
  function IndexOf(s: string, c: char): (i: nat)
    ensures i <= |s|
    ensures c !in s[..i]
    ensures i < |s| ==> s[i] == c
  {
    if s == [] then 0
    else if s[0] == c then 0
    else
      var i := IndexOf(s[1..], c);
      assert s[..1 + i] == [s[0]] + s[1..][..i];
      1 + i
  }

  /** Index of the last `c` plus one, or 0. */
  function AfterLast(s: string, c: char): (i: nat)
    ensures i <= |s|
    ensures c !in s[i..]
    ensures i > 0 ==> s[i - 1] == c
  {
    if s == [] then 0
    else if s[|s| - 1] == c then |s|
    else
      var i := AfterLast(s[..|s| - 1], c);
      assert s[i..] == s[..|s| - 1][i..] + [s[|s| - 1]];
      i
  }

  function SplitOnce(s: string, c: char): Option<(string, string)> {
    var i := IndexOf(s, c);
    if i == |s| then None else Some((s[..i], s[i + 1..]))
  }

  function RSplitOnce(s: string, c: char): Option<(string, string)> {
    var i := AfterLast(s, c);
    if i == 0 then None else Some((s[..i - 1], s[i..]))
  }

  /** `split(c)`: the pieces between the separators, at least one. */
  function Split(s: string, c: char): (ps: seq<string>)
    ensures ps != []
    decreases |s|
  {
    var i := IndexOf(s, c);
    if i == |s| then [s] else [s[..i]] + Split(s[i + 1..], c)
  }

  /** Every piece preceded by the separator. */
  function Prefixed(ps: seq<string>, c: char): string {
    if ps == [] then [] else [c] + ps[0] + Prefixed(ps[1..], c)
  }

  function Join(ps: seq<string>, c: char): string {
    if ps == [] then [] else ps[0] + Prefixed(ps[1..], c)
  }

  lemma IndexOfFirst(a: string, c: char, b: string)
    requires c !in a
    ensures IndexOf(a + [c] + b, c) == |a|
  {
    var s := a + [c] + b;
    var i := IndexOf(s, c);
    assert forall k :: 0 <= k < |a| ==> s[k] == a[k];
    forall k | |a| < k <= |s|
      ensures c in s[..k]
    {
      assert s[..k][|a|] == c;
    }
  }

  lemma IndexOfNone(a: string, c: char)
    requires c !in a
    ensures IndexOf(a, c) == |a|
  {
  }

  lemma SplitOnceAt(a: string, c: char, b: string)
    requires c !in a
    ensures SplitOnce(a + [c] + b, c) == Some((a, b))
  {
    IndexOfFirst(a, c, b);
    var s := a + [c] + b;
    assert s[..|a|] == a && s[|a| + 1..] == b;
  }

  lemma SplitOnceNone(a: string, c: char)
    requires c !in a
    ensures SplitOnce(a, c) == None
  {
  }

  lemma RSplitOnceAt(a: string, c: char, b: string)
    requires c !in b
    ensures RSplitOnce(a + [c] + b, c) == Some((a, b))
  {
    var s := a + [c] + b;
    var i := AfterLast(s, c);
    forall k | 0 <= k <= |a|
      ensures c in s[k..]
    {
      assert s[k..][|a| - k] == c;
    }
    assert forall k :: |a| < k < |s| ==> s[k] == b[k - |a| - 1];
    assert s[..|a|] == a && s[|a| + 1..] == b;
  }

  lemma RSplitOnceNone(a: string, c: char)
    requires c !in a
    ensures RSplitOnce(a, c) == None
  {
  }

  lemma {:induction false} SplitJoin(ps: seq<string>, c: char)
    requires ps != [] && forall p <- ps :: c !in p
    ensures Split(Join(ps, c), c) == ps
    decreases |ps|
  {
    var p := ps[0];
    if |ps| == 1 {
      assert Join(ps, c) == p;
      IndexOfNone(p, c);
    } else {
      var rest := Join(ps[1..], c);
      assert Prefixed(ps[1..], c) == [c] + rest by {
        assert ps[1..][0] == ps[1];
      }
      assert Join(ps, c) == p + [c] + rest;
      IndexOfFirst(p, c, rest);
      var s := Join(ps, c);
      assert s[..|p|] == p && s[|p| + 1..] == rest;
      SplitJoin(ps[1..], c);
    }
  }

  /** What `f` makes of each piece, in order. */
  function FlatMap<T>(ps: seq<string>, f: string -> seq<T>): seq<T> {
    if ps == [] then [] else f(ps[0]) + FlatMap(ps[1..], f)
  }

  function Texts<T>(ts: seq<T>, g: T -> string): (r: seq<string>)
    ensures |r| == |ts| && forall i :: 0 <= i < |r| ==> r[i] == g(ts[i])
  {
    seq(|ts|, i requires 0 <= i < |ts| => g(ts[i]))
  }

  /** If `f` reads back what `g` prints of each element, it reads back the list. */
  lemma {:induction false} FlatMapTexts<T>(ts: seq<T>, f: string -> seq<T>, g: T -> string)
    requires forall i :: 0 <= i < |ts| ==> f(g(ts[i])) == [ts[i]]
    ensures FlatMap(Texts(ts, g), f) == ts
  {
    if ts != [] {
      FlatMapTexts(ts[1..], f, g);
      assert Texts(ts, g)[1..] == Texts(ts[1..], g);
    }
  }

  lemma FlatMapOne<T>(p: string, f: string -> seq<T>)
    ensures FlatMap([p], f) == f(p)
  {
    assert [p][1..] == [];
  }

  /** What holds of everything `f` makes of a piece holds of the whole list. */
  lemma {:induction false} FlatMapAll<T>(ps: seq<string>, f: string -> seq<T>, good: T -> bool)
    requires forall i :: 0 <= i < |ps| ==> forall k :: 0 <= k < |f(ps[i])| ==> good(f(ps[i])[k])
    ensures forall i :: 0 <= i < |FlatMap(ps, f)| ==> good(FlatMap(ps, f)[i])
  {
    if ps != [] {
      FlatMapAll(ps[1..], f, good);
      assert FlatMap(ps, f) == f(ps[0]) + FlatMap(ps[1..], f);
    }
  }

  /** The same list, built by a loop that extends it piece by piece. */
  method FlatMapLoop<T>(ps: seq<string>, f: string -> seq<T>) returns (r: seq<T>)
    ensures r == FlatMap(ps, f)
  {
    r := [];
    for i := 0 to |ps|
      invariant r + FlatMap(ps[i..], f) == FlatMap(ps, f)
    {
      assert ps[i..][1..] == ps[i + 1..];
      assert r + FlatMap(ps[i..], f) == r + f(ps[i]) + FlatMap(ps[i + 1..], f);
      r := r + f(ps[i]);
    }
  }

  // ----------------------------------------------------------------- trimming

  /** `char::is_whitespace`: the Unicode White_Space property. */
  predicate IsSpace(c: char) {
    var n := c as int;
    || 9 <= n <= 13 || n == 32 || n == 0x85 || n == 0xA0 || n == 0x1680
    || 0x2000 <= n <= 0x200A || n == 0x2028 || n == 0x2029 || n == 0x202F || n == 0x205F || n == 0x3000
  }

  predicate NoSpace(s: string) {
    forall c <- s :: !IsSpace(c)
  }

  function TrimStart(s: string): (r: string)
    ensures r == [] || !IsSpace(r[0])
    ensures |r| <= |s| && r == s[|s| - |r|..]
  {
    if s != [] && IsSpace(s[0]) then TrimStart(s[1..]) else s
  }

  function TrimEnd(s: string): (r: string)
    ensures r == [] || !IsSpace(r[|r| - 1])
    ensures |r| <= |s| && r == s[..|r|]
  {
    if s != [] && IsSpace(s[|s| - 1]) then TrimEnd(s[..|s| - 1]) else s
  }

  function Trim(s: string): string {
    TrimEnd(TrimStart(s))
  }

  /** Nothing to trim at either end. */
  predicate Trimmed(s: string) {
    s == [] || (!IsSpace(s[0]) && !IsSpace(s[|s| - 1]))
  }

  lemma TrimStartNone(s: string)
    requires s == [] || !IsSpace(s[0])
    ensures TrimStart(s) == s
  {
  }

  lemma TrimTrimmed(s: string)
    requires Trimmed(s)
    ensures Trim(s) == s && TrimStart(s) == s
  {
  }

  // --------------------------------------------------------------------- case

  function LowerChar(c: char): char {
    if 'A' <= c <= 'Z' then (c as int + 32) as char else c
  }

  function UpperChar(c: char): char {
    if 'a' <= c <= 'z' then (c as int - 32) as char else c
  }

  function Lower(s: string): (r: string)
    ensures |r| == |s| && forall i :: 0 <= i < |s| ==> r[i] == LowerChar(s[i])
  {
    seq(|s|, i requires 0 <= i < |s| => LowerChar(s[i]))
  }

  predicate EqIgnoreCase(a: string, b: string) {
    Lower(a) == Lower(b)
  }

  predicate IsLower(s: string) {
    forall c <- s :: !('A' <= c <= 'Z')
  }

  lemma LowerOfLower(s: string)
    requires IsLower(s)
    ensures Lower(s) == s
  {
    forall i | 0 <= i < |s|
      ensures Lower(s)[i] == s[i]
    {
      assert s[i] in s;
    }
  }

  predicate StartsWith(s: string, p: string) {
    |p| <= |s| && s[..|p|] == p
  }
}
