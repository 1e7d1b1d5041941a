/**
 Storing a retrieved MMS (src/mms/manager.rs, src/db.rs).  Tables and the attachment directory are
 maps; a retrieval is a program of effects that can stop after any of them.
 */
module MmsStore {
  import opened Util
  import opened Text
  import Wsp

  /** A character with what the Unicode tables say of it; `wide` counts only outside ASCII. */
  datatype Glyph = Glyph(c: char, wide: bool)

  type Name = seq<Glyph>

  datatype Part = Part(contentType: string, name: Option<Name>, contentId: Option<string>, data: Wsp.Bytes)

  datatype Key = Key(msg: int, idx: nat)

  datatype Path = Path(msg: int, file: string)

  datatype Row = Row(contentType: string, name: Option<Name>, contentId: Option<string>, size: nat, path: Path)

  datatype Status = Notified | RetrieveFailed | Received | OtherStatus

  datatype Store = Store(rows: map<Key, Row>, files: map<Path, Wsp.Bytes>, status: map<int, Status>, acked: seq<int>)

  // --------------------------------------------------------------- file names

  predicate IsAsciiAlnum(c: char) {
    'a' <= c <= 'z' || 'A' <= c <= 'Z' || '0' <= c <= '9'
  }

  /** Alphanumeric characters, dot, underscore and hyphen are kept. */
  function SafeChar(g: Glyph): char {
    if IsAsciiAlnum(g.c) || (g.c as int >= 0x80 && g.wide) || g.c == '.' || g.c == '_' || g.c == '-' then g.c else '_'
  }

  function SafeText(s: Name): (r: string)
    ensures |r| == |s| && forall i :: 0 <= i < |s| ==> r[i] == SafeChar(s[i])
  {
    seq(|s|, i requires 0 <= i < |s| => SafeChar(s[i]))
  }

  function ExtFor(contentType: string): string {
    var t := Trim(Split(contentType, ';')[0]);
    if t == "text/plain" then ".txt"
    else if t == "text/html" then ".html"
    else if t == "image/jpeg" then ".jpg"
    else if t == "image/png" then ".png"
    else if t == "image/gif" then ".gif"
    else if t == "audio/amr" then ".amr"
    else if t == "video/3gpp" then ".3gp"
    else if t == "application/smil" then ".smil"
    else ".bin"
  }

  function BaseName(name: Option<Name>, index: nat, contentType: string): string {
    var safe := if name.Some? then SafeText(name.value) else "";
    if safe == "" || safe == "." || safe == ".." then "part" + Decimal(index) + ExtFor(contentType) else safe
  }

  function SanitizeName(name: Option<Name>, index: nat, contentType: string): string {
    Decimal(index) + ['_'] + BaseName(name, index, contentType)
  }

  /** The file name says which index it belongs to. */
  predicate Indexed(file: string, index: nat) {
    SplitOnce(file, '_').Some? && SplitOnce(file, '_').value.0 == Decimal(index)
  }

  lemma SanitizedIsIndexed(name: Option<Name>, index: nat, contentType: string)
    ensures Indexed(SanitizeName(name, index, contentType), index)
  {
    hide Decimal, BaseName, SplitOnce;
    DigitsOnly(index);
    SplitOnceAt(Decimal(index), '_', BaseName(name, index, contentType));
  }

  lemma DigitsOnly(n: nat)
    ensures '_' !in Decimal(n)
  {
    hide Decimal;
    assert forall c <- Decimal(n) :: IsDigit(c);
  }

  /** Files of different indices have different names. */
  lemma IndexedIsInjective(file: string, i: nat, j: nat)
    requires Indexed(file, i) && Indexed(file, j)
    ensures i == j
  {
    hide Decimal, SplitOnce, DecimalValue;
    DecimalRoundTrip(i);
    DecimalRoundTrip(j);
  }

  /** A stored name stays in its directory: no path separator, and neither `.` nor `..`. */
  lemma SanitizedStaysInside(name: Option<Name>, index: nat, contentType: string)
    ensures var f := SanitizeName(name, index, contentType);
            f != "." && f != ".." && forall i :: 0 <= i < |f| ==> f[i] != '/' && f[i] != '\0'
  {
    hide Decimal, ExtFor;
    ExtIsPlain(contentType);
    var d := Decimal(index);
    assert forall i :: 0 <= i < |d| ==> IsDigit(d[i]);
    var b := BaseName(name, index, contentType);
    assert forall i :: 0 <= i < |b| ==> b[i] != '/' && b[i] != '\0';
    assert SanitizeName(name, index, contentType)[0] == d[0];
  }

  lemma ExtIsPlain(contentType: string)
    ensures forall i :: 0 <= i < |ExtFor(contentType)| ==> ExtFor(contentType)[i] != '/' && ExtFor(contentType)[i] != '\0'
  {
    hide Trim, Split;
  }

  // ------------------------------------------------------------------ effects

  datatype Step =
    | WriteFile(path: Path, data: Wsp.Bytes)
    | Upsert(key: Key, row: Row)
    | DeleteAbove(msg: int, keep: nat)
    | RemoveFile(path: Path)
    | SetStatus(msg: int, status: Status)
    | Acknowledge(msg: int)

  predicate Above(key: Key, msg: int, keep: nat) {
    key.msg == msg && key.idx > keep
  }

  function Apply(s: Store, step: Step): Store {
    match step
    case WriteFile(path, data) => s.(files := s.files[path := data])
    case Upsert(key, row) => s.(rows := s.rows[key := row])
    case DeleteAbove(msg, keep) => s.(rows := map k | k in s.rows && !Above(k, msg, keep) :: s.rows[k])
    case RemoveFile(path) => s.(files := s.files - {path})
    case SetStatus(msg, status) => if msg in s.status then s.(status := s.status[msg := status]) else s
    case Acknowledge(msg) => s.(acked := s.acked + [msg])
  }

  /** Effects in order, the latest outermost. */
  datatype Program = Nothing | Then(before: Program, last: Step)

  function Run(s: Store, p: Program): Store {
    match p
    case Nothing => s
    case Then(before, last) => Apply(Run(s, before), last)
  }

  /** The program without its last `m` effects. */
  function Cut(p: Program, m: nat): Program {
    if m == 0 || p.Nothing? then p else Cut(p.before, m - 1)
  }

  // ---------------------------------------------------------------- retrieval

  predicate Contains(s: string, sub: string) {
    StartsWith(s, sub) || (s != [] && Contains(s[1..], sub))
  }

  /** The parts that are stored: all but the presentation. */
  function Content(parts: seq<Part>): seq<Part> {
    if parts == [] then []
    else
      var k := |parts| - 1;
      if Contains(parts[k].contentType, "smil") then Content(parts[..k]) else Content(parts[..k]) + [parts[k]]
  }

  function PathOf(msg: int, i: nat, p: Part): Path {
    Path(msg, SanitizeName(p.name, i, p.contentType))
  }

  function RowOf(msg: int, i: nat, p: Part): Row {
    Row(p.contentType, p.name, p.contentId, |p.data|, PathOf(msg, i, p))
  }

  /** The first `k` parts, file before row. */
  function Storing(msg: int, parts: seq<Part>, k: nat): Program
    requires k <= |parts|
  {
    if k == 0 then Nothing
    else
      Then(Then(Storing(msg, parts, k - 1), WriteFile(PathOf(msg, k, parts[k - 1]), parts[k - 1].data)),
           Upsert(Key(msg, k), RowOf(msg, k, parts[k - 1])))
  }

  /** `k` parts and the file of the next. */
  function HalfStoring(msg: int, parts: seq<Part>, k: nat): Program
    requires k < |parts|
  {
    Then(Storing(msg, parts, k), WriteFile(PathOf(msg, k + 1, parts[k]), parts[k].data))
  }

  /** All parts, the rows beyond them deleted, and `removed` of the files those named. */
  function Pruning(msg: int, parts: seq<Part>, removed: seq<Path>): Program {
    if removed == [] then Then(Storing(msg, parts, |parts|), DeleteAbove(msg, |parts|))
    else Then(Pruning(msg, parts, removed[..|removed| - 1]), RemoveFile(removed[|removed| - 1]))
  }

  function StoreProgram(msg: int, parts: seq<Part>, removed: seq<Path>): Program {
    Then(Pruning(msg, parts, removed), SetStatus(msg, Received))
  }

  /** The files named by rows beyond the new parts. */
  ghost predicate Stale(s: Store, msg: int, keep: nat, path: Path) {
    exists k :: k in s.rows && Above(k, msg, keep) && s.rows[k].path == path
  }

  ghost predicate AllStale(s: Store, msg: int, keep: nat, removed: seq<Path>) {
    forall i :: 0 <= i < |removed| ==> Stale(s, msg, keep, removed[i])
  }

  // ---------------------------------------------------------------- invariant

  ghost predicate RowOk(s: Store, k: Key) {
    k in s.rows ==> s.rows[k].path.msg == k.msg && Indexed(s.rows[k].path.file, k.idx) && s.rows[k].path in s.files
  }

  /** Every row names an existing file of its own message and index. */
  ghost predicate Inv(s: Store) {
    forall k :: RowOk(s, k)
  }

  /** Rows of message `msg` with index 1 to `k` are the new parts; all others are as in `s`. */
  ghost predicate RowsStored(s: Store, t: Store, msg: int, parts: seq<Part>, k: nat)
    requires k <= |parts|
  {
    forall key: Key ::
      if key.msg == msg && 1 <= key.idx <= k then key in t.rows && t.rows[key] == RowOf(msg, key.idx, parts[key.idx - 1])
      else (key in t.rows <==> key in s.rows) && (key in s.rows ==> t.rows[key] == s.rows[key])
  }

  ghost predicate FilesStored(s: Store, t: Store, msg: int, parts: seq<Part>, k: nat)
    requires k <= |parts|
  {
    && (forall i :: 0 <= i < k ==> FileOf(t, msg, parts, i))
    && (forall p :: p in s.files ==> p in t.files)
    && (forall p: Path :: p.msg != msg ==> (p in t.files <==> p in s.files) && (p in s.files ==> t.files[p] == s.files[p]))
  }

  /** The file of part `i` holds its data. */
  ghost predicate FileOf(t: Store, msg: int, parts: seq<Part>, i: nat)
    requires i < |parts|
  {
    var p := PathOf(msg, i + 1, parts[i]);
    p in t.files && t.files[p] == parts[i].data
  }

  lemma PathsDiffer(msg: int, i: nat, a: Part, j: nat, b: Part)
    requires i != j
    ensures PathOf(msg, i, a) != PathOf(msg, j, b)
  {
    hide SanitizeName, Indexed;
    SanitizedIsIndexed(a.name, i, a.contentType);
    SanitizedIsIndexed(b.name, j, b.contentType);
    if PathOf(msg, i, a) == PathOf(msg, j, b) {
      IndexedIsInjective(SanitizeName(a.name, i, a.contentType), i, j);
    }
  }

  /** `rows` parts have their row and `files` parts their file; nothing else has changed. */
  ghost predicate Stored(s: Store, t: Store, msg: int, parts: seq<Part>, rows: nat, files: nat)
    requires rows <= |parts| && files <= |parts|
  {
    RowsStored(s, t, msg, parts, rows) && FilesStored(s, t, msg, parts, files) && t.status == s.status && t.acked == s.acked
  }

  lemma {:induction false} StoringReaches(s: Store, msg: int, parts: seq<Part>, k: nat)
    requires k <= |parts|
    ensures Stored(s, Run(s, Storing(msg, parts, k)), msg, parts, k, k)
  {
    hide PathOf, RowOf, Stored, Apply;
    if k == 0 {
      NothingStored(s, msg, parts);
    } else {
      StoringReaches(s, msg, parts, k - 1);
      FileReaches(s, Run(s, Storing(msg, parts, k - 1)), msg, parts, k - 1);
      RowReaches(s, Run(s, HalfStoring(msg, parts, k - 1)), msg, parts, k - 1);
    }
  }

  lemma NothingStored(s: Store, msg: int, parts: seq<Part>)
    ensures Stored(s, s, msg, parts, 0, 0)
  {
  }

  lemma FileReaches(s: Store, t: Store, msg: int, parts: seq<Part>, k: nat)
    requires k < |parts| && Stored(s, t, msg, parts, k, k)
    ensures Stored(s, Apply(t, WriteFile(PathOf(msg, k + 1, parts[k]), parts[k].data)), msg, parts, k, k + 1)
  {
    hide RowOf, RowsStored, SanitizeName;
    var u := Apply(t, WriteFile(PathOf(msg, k + 1, parts[k]), parts[k].data));
    SameRows(s, t, u, msg, parts, k);
    forall i | 0 <= i < k + 1
      ensures FileOf(u, msg, parts, i)
    {
      if i < k {
        assert FileOf(t, msg, parts, i);
        PathsDiffer(msg, i + 1, parts[i], k + 1, parts[k]);
      }
    }
  }

  lemma SameRows(s: Store, t: Store, u: Store, msg: int, parts: seq<Part>, k: nat)
    requires k <= |parts| && RowsStored(s, t, msg, parts, k) && u.rows == t.rows
    ensures RowsStored(s, u, msg, parts, k)
  {
    hide RowOf;
  }

  lemma SameFiles(s: Store, t: Store, u: Store, msg: int, parts: seq<Part>, k: nat)
    requires k <= |parts| && FilesStored(s, t, msg, parts, k) && u.files == t.files
    ensures FilesStored(s, u, msg, parts, k)
  {
    hide PathOf;
    forall i | 0 <= i < k
      ensures FileOf(u, msg, parts, i)
    {
      assert FileOf(t, msg, parts, i);
    }
  }

  lemma RowReaches(s: Store, t: Store, msg: int, parts: seq<Part>, k: nat)
    requires k < |parts| && Stored(s, t, msg, parts, k, k + 1)
    ensures Stored(s, Apply(t, Upsert(Key(msg, k + 1), RowOf(msg, k + 1, parts[k]))), msg, parts, k + 1, k + 1)
  {
    hide RowOf, FilesStored;
    var u := Apply(t, Upsert(Key(msg, k + 1), RowOf(msg, k + 1, parts[k])));
    SameFiles(s, t, u, msg, parts, k + 1);
  }

  lemma HalfReaches(s: Store, msg: int, parts: seq<Part>, k: nat)
    requires k < |parts|
    ensures Stored(s, Run(s, HalfStoring(msg, parts, k)), msg, parts, k, k + 1)
  {
    hide PathOf, Stored, Apply;
    StoringReaches(s, msg, parts, k);
    FileReaches(s, Run(s, Storing(msg, parts, k)), msg, parts, k);
  }

  /** While parts are being stored, every row has its file. */
  lemma StoredKeepsInv(s: Store, t: Store, msg: int, parts: seq<Part>, rows: nat, files: nat)
    requires rows <= files <= |parts| && Stored(s, t, msg, parts, rows, files) && Inv(s)
    ensures Inv(t)
  {
    hide SanitizeName, Indexed;
    forall k: Key
      ensures RowOk(t, k)
    {
      assert RowOk(s, k);
      if k.msg == msg && 1 <= k.idx <= rows {
        var p := parts[k.idx - 1];
        assert FileOf(t, msg, parts, k.idx - 1);
        SanitizedIsIndexed(p.name, k.idx, p.contentType);
      }
    }
  }

  // ------------------------------------------------------------------- pruning

  /** Indices of the message are exactly 1 to n, holding the parts; other messages are untouched. */
  ghost predicate Exactly(s: Store, t: Store, msg: int, parts: seq<Part>) {
    && (forall key: Key :: key.msg == msg && 1 <= key.idx <= |parts| ==>
          key in t.rows && t.rows[key] == RowOf(msg, key.idx, parts[key.idx - 1]))
    && (forall key: Key :: key.msg == msg && key.idx > |parts| ==> key !in t.rows)
    && (forall key: Key :: key.msg != msg ==>
          (key in t.rows <==> key in s.rows) && (key in s.rows ==> t.rows[key] == s.rows[key]))
    && (forall i :: 0 <= i < |parts| ==> FileOf(t, msg, parts, i))
    && (forall p: Path :: p.msg != msg ==> (p in t.files <==> p in s.files) && (p in s.files ==> t.files[p] == s.files[p]))
  }

  lemma DeleteReaches(s: Store, t: Store, msg: int, parts: seq<Part>)
    requires Stored(s, t, msg, parts, |parts|, |parts|) && Inv(s)
    ensures var u := Apply(t, DeleteAbove(msg, |parts|)); Exactly(s, u, msg, parts) && Inv(u) && u.status == s.status && u.acked == s.acked
  {
    hide RowOf, PathOf, Indexed;
    StoredKeepsInv(s, t, msg, parts, |parts|, |parts|);
    var u := Apply(t, DeleteAbove(msg, |parts|));
    forall i | 0 <= i < |parts|
      ensures FileOf(u, msg, parts, i)
    {
      assert FileOf(t, msg, parts, i);
    }
    forall k: Key
      ensures RowOk(u, k)
    {
      assert RowOk(t, k);
    }
  }

  /** A stale file belongs to no row that is kept and to no new part. */
  lemma StaleIsNotKept(s: Store, msg: int, keep: nat, path: Path, k: Key, p: Path)
    requires Inv(s) && Stale(s, msg, keep, path) && !Above(k, msg, keep)
    requires p.msg == k.msg && Indexed(p.file, k.idx)
    ensures p != path
  {
    hide Indexed;
    var old' :| old' in s.rows && Above(old', msg, keep) && s.rows[old'].path == path;
    assert RowOk(s, old');
    if p == path {
      IndexedIsInjective(p.file, k.idx, old'.idx);
    }
  }

  lemma RemoveKeeps(s: Store, t: Store, msg: int, parts: seq<Part>, path: Path)
    requires Inv(s) && Exactly(s, t, msg, parts) && Inv(t) && Stale(s, msg, |parts|, path)
    ensures var u := Apply(t, RemoveFile(path)); Exactly(s, u, msg, parts) && Inv(u) && u.status == t.status && u.acked == t.acked
  {
    hide Indexed, SanitizeName;
    var u := Apply(t, RemoveFile(path));
    forall k: Key
      ensures RowOk(u, k)
    {
      assert RowOk(t, k);
      if k in t.rows {
        StaleIsNotKept(s, msg, |parts|, path, k, t.rows[k].path);
      }
    }
    forall i | 0 <= i < |parts|
      ensures FileOf(u, msg, parts, i)
    {
      assert FileOf(t, msg, parts, i);
      SanitizedIsIndexed(parts[i].name, i + 1, parts[i].contentType);
      StaleIsNotKept(s, msg, |parts|, path, Key(msg, i + 1), PathOf(msg, i + 1, parts[i]));
    }
    StaleOfMessage(s, msg, |parts|, path);
  }

  lemma StaleOfMessage(s: Store, msg: int, keep: nat, path: Path)
    requires Inv(s) && Stale(s, msg, keep, path)
    ensures path.msg == msg
  {
    var k :| k in s.rows && Above(k, msg, keep) && s.rows[k].path == path;
    assert RowOk(s, k);
  }

  lemma {:induction false} PruningReaches(s: Store, msg: int, parts: seq<Part>, removed: seq<Path>)
    requires Inv(s) && AllStale(s, msg, |parts|, removed)
    ensures var t := Run(s, Pruning(msg, parts, removed));
            Exactly(s, t, msg, parts) && Inv(t) && t.status == s.status && t.acked == s.acked
    decreases |removed|
  {
    hide Exactly, Inv, Stored, Apply, Stale;
    if removed == [] {
      StoringReaches(s, msg, parts, |parts|);
      DeleteReaches(s, Run(s, Storing(msg, parts, |parts|)), msg, parts);
    } else {
      var rest := removed[..|removed| - 1];
      PruningReaches(s, msg, parts, rest);
      RemoveKeeps(s, Run(s, Pruning(msg, parts, rest)), msg, parts, removed[|removed| - 1]);
    }
  }

  // -------------------------------------------------------- stopping anywhere

  /** Where a storing program can have stopped. */
  datatype Point = Parts(k: nat) | HalfPart(k: nat) | Pruned(j: nat) | Complete

  predicate PointOk(at: Point, parts: seq<Part>, removed: seq<Path>) {
    match at
    case Parts(k) => k <= |parts|
    case HalfPart(k) => k < |parts|
    case Pruned(j) => j <= |removed|
    case Complete => true
  }

  function ProgramAt(at: Point, msg: int, parts: seq<Part>, removed: seq<Path>): Program
    requires PointOk(at, parts, removed)
  {
    match at
    case Parts(k) => Storing(msg, parts, k)
    case HalfPart(k) => HalfStoring(msg, parts, k)
    case Pruned(j) => Pruning(msg, parts, removed[..j])
    case Complete => StoreProgram(msg, parts, removed)
  }

  lemma {:induction false} CutStoring(msg: int, parts: seq<Part>, k: nat, m: nat) returns (at: Point)
    requires k <= |parts|
    ensures PointOk(at, parts, []) && (at.Parts? || at.HalfPart?) && Cut(Storing(msg, parts, k), m) == ProgramAt(at, msg, parts, [])
    decreases k
  {
    hide PathOf, RowOf;
    if m == 0 || k == 0 {
      at := Parts(k);
    } else if m == 1 {
      at := HalfPart(k - 1);
      assert Cut(HalfStoring(msg, parts, k - 1), 0) == HalfStoring(msg, parts, k - 1);
    } else {
      at := CutStoring(msg, parts, k - 1, m - 2);
      assert Cut(HalfStoring(msg, parts, k - 1), m - 1) == Cut(Storing(msg, parts, k - 1), m - 2);
    }
  }

  lemma CutStep(p: Program, step: Step, m: nat)
    ensures Cut(Then(p, step), 0) == Then(p, step) && Cut(Then(p, step), m + 1) == Cut(p, m)
  {
  }

  lemma PruningFirst(msg: int, parts: seq<Part>, removed: seq<Path>)
    ensures Pruning(msg, parts, removed[..0]) == Then(Storing(msg, parts, |parts|), DeleteAbove(msg, |parts|))
  {
    hide Storing;
  }

  lemma PruningNext(msg: int, parts: seq<Part>, removed: seq<Path>, j: nat)
    requires 0 < j <= |removed|
    ensures Pruning(msg, parts, removed[..j]) == Then(Pruning(msg, parts, removed[..j - 1]), RemoveFile(removed[j - 1]))
  {
    hide Storing;
    assert removed[..j][..j - 1] == removed[..j - 1];
  }

  lemma {:induction false} CutPruning(msg: int, parts: seq<Part>, removed: seq<Path>, j: nat, m: nat) returns (at: Point)
    requires j <= |removed|
    ensures PointOk(at, parts, removed) && !at.Complete?
    ensures Cut(Pruning(msg, parts, removed[..j]), m) == ProgramAt(at, msg, parts, removed)
    decreases j
  {
    hide Storing, HalfStoring, Pruning, Cut;
    if j == 0 {
      var all := Storing(msg, parts, |parts|);
      PruningFirst(msg, parts, removed);
      if m == 0 {
        CutStep(all, DeleteAbove(msg, |parts|), 0);
        at := Pruned(0);
      } else {
        CutStep(all, DeleteAbove(msg, |parts|), m - 1);
        at := CutStoring(msg, parts, |parts|, m - 1);
      }
    } else {
      PruningNext(msg, parts, removed, j);
      var before, step := Pruning(msg, parts, removed[..j - 1]), RemoveFile(removed[j - 1]);
      if m == 0 {
        CutStep(before, step, 0);
        at := Pruned(j);
      } else {
        CutStep(before, step, m - 1);
        at := CutPruning(msg, parts, removed, j - 1, m - 1);
      }
    }
  }

  /** Every way of stopping is one of these points. */
  lemma EveryCutIsAPoint(msg: int, parts: seq<Part>, removed: seq<Path>, m: nat) returns (at: Point)
    ensures PointOk(at, parts, removed) && Cut(StoreProgram(msg, parts, removed), m) == ProgramAt(at, msg, parts, removed)
    ensures m > 0 ==> !at.Complete?
  {
    hide Pruning, Storing, HalfStoring, Cut;
    assert removed[..|removed|] == removed;
    var all := Pruning(msg, parts, removed);
    if m == 0 {
      CutStep(all, SetStatus(msg, Received), 0);
      at := Complete;
    } else {
      CutStep(all, SetStatus(msg, Received), m - 1);
      at := CutPruning(msg, parts, removed, |removed|, m - 1);
    }
  }

  ghost predicate NoneLost(s: Store, t: Store) {
    forall k :: k in s.rows ==> k in t.rows
  }

  /** Wherever it stops: every row has its file; no index is gone until all parts are stored; the status is last. */
  lemma StopAnywhere(s: Store, at: Point, msg: int, parts: seq<Part>, removed: seq<Path>)
    requires Inv(s) && AllStale(s, msg, |parts|, removed) && PointOk(at, parts, removed)
    ensures var t := Run(s, ProgramAt(at, msg, parts, removed));
            && Inv(t) && t.acked == s.acked
            && (at.Parts? || at.HalfPart? ==> NoneLost(s, t))
            && (at.Pruned? || at.Complete? ==> Exactly(s, t, msg, parts))
            && (!at.Complete? ==> t.status == s.status)
            && (at.Complete? && msg in s.status ==> t.status == s.status[msg := Received])
  {
    hide Inv, Exactly, Stale, NoneLost, Storing, HalfStoring, Pruning;
    match at {
      case Parts(k) => PartsStop(s, msg, parts, k);
      case HalfPart(k) => HalfStop(s, msg, parts, k);
      case Pruned(j) => PruningReaches(s, msg, parts, removed[..j]);
      case Complete =>
        PruningReaches(s, msg, parts, removed);
        StatusOnly(s, Run(s, Pruning(msg, parts, removed)), msg, parts);
    }
  }

  lemma PartsStop(s: Store, msg: int, parts: seq<Part>, k: nat)
    requires Inv(s) && k <= |parts|
    ensures var t := Run(s, Storing(msg, parts, k)); Inv(t) && NoneLost(s, t) && t.status == s.status && t.acked == s.acked
  {
    hide Inv, RowOf, FilesStored, Storing;
    StoringReaches(s, msg, parts, k);
    StoredKeepsInv(s, Run(s, Storing(msg, parts, k)), msg, parts, k, k);
  }

  lemma HalfStop(s: Store, msg: int, parts: seq<Part>, k: nat)
    requires Inv(s) && k < |parts|
    ensures var t := Run(s, HalfStoring(msg, parts, k)); Inv(t) && NoneLost(s, t) && t.status == s.status && t.acked == s.acked
  {
    hide Inv, RowOf, FilesStored, HalfStoring;
    HalfReaches(s, msg, parts, k);
    StoredKeepsInv(s, Run(s, HalfStoring(msg, parts, k)), msg, parts, k, k + 1);
  }

  lemma StatusOnly(s: Store, t: Store, msg: int, parts: seq<Part>)
    requires Inv(t) && Exactly(s, t, msg, parts)
    ensures var u := Apply(t, SetStatus(msg, Received)); Inv(u) && Exactly(s, u, msg, parts)
  {
    hide RowOf, PathOf, Indexed;
    var u := Apply(t, SetStatus(msg, Received));
    forall k: Key
      ensures RowOk(u, k)
    {
      assert RowOk(t, k);
    }
    forall i | 0 <= i < |parts|
      ensures FileOf(u, msg, parts, i)
    {
      assert FileOf(t, msg, parts, i);
    }
  }

  /** Part indices of an incoming message start at one. */
  ghost predicate FromOne(s: Store, msg: int) {
    forall k :: k in s.rows && k.msg == msg ==> k.idx >= 1
  }

  /** From any earlier state, a finished retrieval leaves exactly 1 to n: the new parts in order, each with its data. */
  lemma RetrievalIsExact(s: Store, msg: int, parts: seq<Part>, removed: seq<Path>, i: nat)
    requires Inv(s) && FromOne(s, msg) && AllStale(s, msg, |Content(parts)|, removed)
    ensures var t := Run(s, StoreProgram(msg, Content(parts), removed));
            && (Key(msg, i) in t.rows <==> 1 <= i <= |Content(parts)|)
            && (1 <= i <= |Content(parts)| ==>
                  var row := t.rows[Key(msg, i)]; var p := Content(parts)[i - 1];
                  && row.contentType == p.contentType && row.name == p.name && row.contentId == p.contentId
                  && row.size == |p.data| && row.path in t.files && t.files[row.path] == p.data)
  {
    hide Inv, Stale, SanitizeName;
    var c := Content(parts);
    StopAnywhere(s, Complete, msg, c, removed);
    var t := Run(s, StoreProgram(msg, c, removed));
    if i == 0 {
      ZeroStays(s, msg, c, removed);
    } else if i <= |c| {
      assert FileOf(t, msg, c, i - 1);
    }
  }

  lemma {:induction false} ZeroStays(s: Store, msg: int, parts: seq<Part>, removed: seq<Path>)
    requires Key(msg, 0) !in s.rows
    ensures Key(msg, 0) !in Run(s, StoreProgram(msg, parts, removed)).rows
  {
    hide RowOf, PathOf;
    ZeroPruning(s, msg, parts, removed);
  }

  lemma {:induction false} ZeroPruning(s: Store, msg: int, parts: seq<Part>, removed: seq<Path>)
    requires Key(msg, 0) !in s.rows
    ensures Key(msg, 0) !in Run(s, Pruning(msg, parts, removed)).rows
    decreases |removed|
  {
    hide RowOf, PathOf;
    if removed == [] {
      StoringReaches(s, msg, parts, |parts|);
    } else {
      ZeroPruning(s, msg, parts, removed[..|removed| - 1]);
    }
  }

  // ------------------------------------------------------- fetch, store, confirm

  datatype Notification = Notification(location: Option<string>, size: Option<nat>, transactionId: Option<string>)

  /** The decoded reply of the MMSC. */
  datatype Reply = Reply(isRetrieveConf: bool, retrieveStatus: Option<nat>, transactionId: Option<string>, parts: seq<Part>)

  /** What the outside says: the setup command, the HTTP status, whether the body decodes, and the MMSC's own address. */
  datatype Fetch = Fetch(setupOk: bool, status: Option<nat>, reply: Option<Reply>, hasMmsc: bool)

  const STATUS_OK: nat := 0x80

  /** The reply may be stored: a message, not an error page and not a refusal. */
  predicate Storable(r: Reply) {
    && (r.isRetrieveConf || r.parts != [])
    && (r.retrieveStatus.Some? ==> r.retrieveStatus.value == STATUS_OK)
  }

  predicate Fetched(n: Notification, f: Fetch, maxSize: nat) {
    && n.location.Some?
    && (n.size.Some? ==> n.size.value <= maxSize)
    && f.setupOk && f.status == Some(200) && f.reply.Some? && Storable(f.reply.value)
  }

  /** All effects of a retrieval; an unfit reply has none. */
  function Retrieval(n: Notification, f: Fetch, maxSize: nat, msg: int, removed: seq<Path>): Program {
    if !Fetched(n, f, maxSize) then Nothing
    else
      var store := StoreProgram(msg, Content(f.reply.value.parts), removed);
      if (f.reply.value.transactionId.Some? || n.transactionId.Some?) && f.hasMmsc then Then(store, Acknowledge(msg)) else store
  }

  /** The MMSC is told to forget the message only when it is stored whole and marked received. */
  lemma AcknowledgedIsStored(s: Store, n: Notification, f: Fetch, maxSize: nat, msg: int, removed: seq<Path>, m: nat)
    requires Inv(s) && msg in s.status
    requires f.reply.Some? ==> AllStale(s, msg, |Content(f.reply.value.parts)|, removed)
    ensures var t := Run(s, Cut(Retrieval(n, f, maxSize, msg, removed), m));
            && Inv(t)
            && (t.acked == s.acked || t.acked == s.acked + [msg])
            && (t.acked != s.acked ==> Fetched(n, f, maxSize) && msg in t.status && t.status[msg] == Received && Exactly(s, t, msg, Content(f.reply.value.parts)))
  {
    hide Inv, Exactly, Stale, StoreProgram, Content, Storable;
    if Fetched(n, f, maxSize) {
      var parts := Content(f.reply.value.parts);
      StopAnywhere(s, Complete, msg, parts, removed);
      var store := StoreProgram(msg, parts, removed);
      var r := Retrieval(n, f, maxSize, msg, removed);
      if r == store {
        StoppedStore(s, msg, parts, removed, m);
      } else if m > 0 {
        assert Cut(r, m) == Cut(store, m - 1);
        StoppedStore(s, msg, parts, removed, m - 1);
      } else {
        AckOnly(s, Run(s, store), msg, parts);
      }
    }
  }

  lemma StoppedStore(s: Store, msg: int, parts: seq<Part>, removed: seq<Path>, m: nat)
    requires Inv(s) && AllStale(s, msg, |parts|, removed)
    ensures var t := Run(s, Cut(StoreProgram(msg, parts, removed), m)); Inv(t) && t.acked == s.acked
  {
    hide Inv, Exactly, Stale, StoreProgram, ProgramAt;
    var at := EveryCutIsAPoint(msg, parts, removed, m);
    StopAnywhere(s, at, msg, parts, removed);
  }

  lemma AckOnly(s: Store, t: Store, msg: int, parts: seq<Part>)
    requires Inv(t) && Exactly(s, t, msg, parts)
    ensures var u := Apply(t, Acknowledge(msg)); Inv(u) && Exactly(s, u, msg, parts)
  {
    hide RowOf, PathOf, Indexed;
    var u := Apply(t, Acknowledge(msg));
    forall k: Key
      ensures RowOk(u, k)
    {
      assert RowOk(t, k);
    }
    forall i | 0 <= i < |parts|
      ensures FileOf(u, msg, parts, i)
    {
      assert FileOf(t, msg, parts, i);
    }
  }

  // ------------------------------------------------------------ re-notification

  /** The stored notification to retry, if its body is still missing. */
  function RetriableDuplicate(enabled: bool, autoRetrieve: bool, found: Option<int>, s: Store): Option<int>
    requires found.Some? ==> found.value in s.status
  {
    if !enabled || !autoRetrieve || found.None? then None
    else if s.status[found.value] == Notified || s.status[found.value] == RetrieveFailed then found
    else None
  }

  /** A retrieval that stops early stays owed, and one that finishes is never repeated. */
  lemma OwedUntilStored(s: Store, msg: int, parts: seq<Part>, removed: seq<Path>, m: nat)
    requires Inv(s) && AllStale(s, msg, |parts|, removed)
    requires msg in s.status && RetriableDuplicate(true, true, Some(msg), s) == Some(msg)
    ensures var t := Run(s, Cut(StoreProgram(msg, parts, removed), m));
            msg in t.status && (RetriableDuplicate(true, true, Some(msg), t) == Some(msg) <==> m > 0)
  {
    hide Inv, Exactly, Stale, StoreProgram, ProgramAt;
    var at := EveryCutIsAPoint(msg, parts, removed, m);
    StopAnywhere(s, at, msg, parts, removed);
    if m == 0 {
      StopAnywhere(s, Complete, msg, parts, removed);
      WholeIsComplete(msg, parts, removed);
    }
  }

  lemma WholeIsComplete(msg: int, parts: seq<Part>, removed: seq<Path>)
    ensures Cut(StoreProgram(msg, parts, removed), 0) == ProgramAt(Complete, msg, parts, removed)
  {
  }

  // ------------------------------------------------------------------ in place

  /** The database and the attachment directory; `works(i)` says whether the i-th fallible operation succeeds. */
  class Db {
    var rows: map<Key, Row>
    var files: map<Path, Wsp.Bytes>
    var status: map<int, Status>
    var acked: seq<int>
    const works: nat -> bool
    var operations: nat

    constructor (works: nat -> bool)
      ensures View() == Store(map[], map[], map[], [])
    {
      rows, files, status, acked := map[], map[], map[], [];
      this.works := works;
      operations := 0;
    }

    ghost function View(): Store
      reads this
    {
      Store(rows, files, status, acked)
    }

    method Works() returns (ok: bool)
      modifies this`operations
      ensures ok == works(old(operations)) && operations == old(operations) + 1
    {
      ok := works(operations);
      operations := operations + 1;
    }

    /** File first, then the row; `wrote` tells how far a failed call came. */
    method AddAttachment(msg: int, index: nat, p: Part) returns (ok: bool, ghost wrote: bool)
      modifies this
      ensures var write := WriteFile(PathOf(msg, index, p), p.data); var upsert := Upsert(Key(msg, index), RowOf(msg, index, p));
              && (ok ==> wrote && View() == Apply(Apply(old(View()), write), upsert))
              && (!ok ==> View() == if wrote then Apply(old(View()), write) else old(View()))
    {
      hide SanitizeName;
      wrote := false;
      ok := Works();
      if !ok { return; }
      var path := Path(msg, SanitizeName(p.name, index, p.contentType));
      files := files[path := p.data];
      wrote := true;
      ok := Works();
      if !ok { return; }
      rows := rows[Key(msg, index) := Row(p.contentType, p.name, p.contentId, |p.data|, path)];
    }

    /** Deletes the rows beyond `keep`, then their files; a file that cannot be removed is left behind. */
    method PruneAttachments(msg: int, keep: nat) returns (ok: bool, ghost removed: seq<Path>)
      modifies this
      ensures !ok ==> View() == old(View())
      ensures ok ==> AllStale(old(View()), msg, keep, removed) && View() == Removing(Apply(old(View()), DeleteAbove(msg, keep)), removed)
    {
      removed := [];
      ok := Works();
      if !ok { return; }
      ghost var was := View();
      var stale := set k | k in rows && Above(k, msg, keep) :: rows[k].path;
      rows := map k | k in rows && !Above(k, msg, keep) :: rows[k];
      ghost var cleared := View();
      while stale != {}
        invariant View() == Removing(cleared, removed)
        invariant forall p :: p in stale ==> Stale(was, msg, keep, p)
        invariant AllStale(was, msg, keep, removed)
        decreases |stale|
      {
        var path :| path in stale;
        stale := stale - {path};
        var gone := Works();
        if gone {
          assert (removed + [path])[..|removed|] == removed;
          files := files - {path};
          removed := removed + [path];
        }
      }
    }

    method DoSetStatus(msg: int, value: Status) returns (ok: bool)
      modifies this
      ensures View() == if ok then Apply(old(View()), SetStatus(msg, value)) else old(View())
    {
      ok := Works();
      if ok && msg in status {
        status := status[msg := value];
      }
    }

    /** The loop over the parts; a failure leaves the parts before it, and maybe the file of the one it hit. */
    method StoreParts(msg: int, parts: seq<Part>) returns (ok: bool, index: nat, ghost at: Point)
      modifies this
      ensures PointOk(at, Content(parts), []) && (at.Parts? || at.HalfPart?)
      ensures ok ==> index == |Content(parts)| && at == Parts(index)
      ensures View() == Run(old(View()), ProgramAt(at, msg, Content(parts), []))
    {
      hide PathOf, RowOf, Contains, Apply, Content;
      ghost var s, c := View(), Content(parts);
      index := 0;
      ContentPrefix(parts, 0);
      ContentNone(parts);
      for j := 0 to |parts|
        invariant index == |Content(parts[..j])| <= |c| && Content(parts[..j]) == c[..index]
        invariant View() == Run(s, Storing(msg, c, index))
      {
        ContentStep(parts, j);
        if Contains(parts[j].contentType, "smil") {
          continue;
        }
        assert c[index] == parts[j];
        index := index + 1;
        ghost var wrote;
        ok, wrote := AddAttachment(msg, index, parts[j]);
        if !ok {
          at := if wrote then HalfPart(index - 1) else Parts(index - 1);
          return;
        }
      }
      assert parts[..|parts|] == parts;
      ok, at := true, Parts(index);
    }

    /** Parts, prune, status: it stops at some point of the program, and only a finished run changes the status. */
    method StoreRetrieved(msg: int, parts: seq<Part>) returns (ok: bool, ghost at: Point, ghost removed: seq<Path>)
      requires Inv(View())
      modifies this
      ensures PointOk(at, Content(parts), removed) && (ok ==> at.Complete?)
      ensures View() == Run(old(View()), ProgramAt(at, msg, Content(parts), removed))
      ensures Inv(View()) && (at.Parts? || at.HalfPart? ==> NoneLost(old(View()), View()))
      ensures ok ==> Exactly(old(View()), View(), msg, Content(parts)) && (msg in status ==> status[msg] == Received)
      ensures !ok ==> status == old(status)
    {
      hide Inv, Exactly, NoneLost, Stale, Storing, HalfStoring, Content;
      ghost var s, c := View(), Content(parts);
      removed := [];
      var index;
      ok, index, at := StoreParts(msg, parts);
      if ok {
        ok, removed, at := Finish(msg, index, s, c);
      }
      StopAnywhere(s, at, msg, c, removed);
    }

    method Finish(msg: int, keep: nat, ghost s: Store, ghost parts: seq<Part>) returns (ok: bool, ghost removed: seq<Path>, ghost at: Point)
      requires keep == |parts| && View() == Run(s, Storing(msg, parts, keep))
      modifies this
      ensures PointOk(at, parts, removed) && (ok <==> at.Complete?) && AllStale(s, msg, |parts|, removed)
      ensures View() == Run(s, ProgramAt(at, msg, parts, removed))
    {
      hide AllStale, Storing, Apply;
      NoneStale(s, msg, |parts|);
      ok, removed := PruneAttachments(msg, keep);
      if !ok {
        removed, at := [], Parts(keep);
        return;
      }
      StaleBeforeAndAfter(s, msg, parts, removed);
      PruningIsRemoving(s, msg, parts, removed);
      ok := DoSetStatus(msg, Received);
      at := if ok then Complete else Pruned(|removed|);
      assert removed[..|removed|] == removed;
    }
  }

  /** The files removed one by one. */
  function Removing(s: Store, removed: seq<Path>): Store {
    if removed == [] then s else Apply(Removing(s, removed[..|removed| - 1]), RemoveFile(removed[|removed| - 1]))
  }

  lemma {:induction false} PruningIsRemoving(s: Store, msg: int, parts: seq<Part>, removed: seq<Path>)
    ensures Run(s, Pruning(msg, parts, removed)) == Removing(Run(s, Then(Storing(msg, parts, |parts|), DeleteAbove(msg, |parts|))), removed)
    decreases |removed|
  {
    hide Storing, Apply;
    if removed != [] {
      PruningIsRemoving(s, msg, parts, removed[..|removed| - 1]);
    }
  }

  /** Stale when the rows are deleted, which is after all parts are stored. */
  ghost predicate AllStaleAfter(s: Store, msg: int, parts: seq<Part>, removed: seq<Path>) {
    AllStale(Run(s, Storing(msg, parts, |parts|)), msg, |parts|, removed)
  }

  lemma NoneStale(s: Store, msg: int, keep: nat)
    ensures AllStale(s, msg, keep, [])
  {
  }

  /** Storing the parts does not touch the rows beyond them, so the same files are stale before and after. */
  lemma StaleBeforeAndAfter(s: Store, msg: int, parts: seq<Part>, removed: seq<Path>)
    ensures AllStaleAfter(s, msg, parts, removed) <==> AllStale(s, msg, |parts|, removed)
  {
    hide RowOf, FilesStored;
    var t := Run(s, Storing(msg, parts, |parts|));
    StoringReaches(s, msg, parts, |parts|);
    forall p: Path
      ensures Stale(t, msg, |parts|, p) <==> Stale(s, msg, |parts|, p)
    {
      assert forall k: Key :: Above(k, msg, |parts|) ==> (k in t.rows <==> k in s.rows) && (k in s.rows ==> t.rows[k] == s.rows[k]);
    }
  }

  lemma ContentNone(parts: seq<Part>)
    ensures Content(parts[..0]) == []
  {
  }

  lemma ContentStep(parts: seq<Part>, j: nat)
    requires j < |parts|
    ensures var before, now := Content(parts[..j]), Content(parts[..j + 1]);
            && now == (if Contains(parts[j].contentType, "smil") then before else before + [parts[j]])
            && |now| <= |Content(parts)| && now == Content(parts)[..|now|]
  {
    hide Contains;
    assert parts[..j + 1][..j] == parts[..j];
    ContentPrefix(parts, j + 1);
  }

  lemma {:induction false} ContentPrefix(parts: seq<Part>, j: nat)
    requires j <= |parts|
    ensures |Content(parts[..j])| <= |Content(parts)| && Content(parts[..j]) == Content(parts)[..|Content(parts[..j])|]
    decreases |parts|
  {
    hide Contains;
    if j == |parts| {
      assert parts[..j] == parts;
    } else {
      var k := |parts| - 1;
      ContentPrefix(parts[..k], j);
      assert parts[..k][..j] == parts[..j];
    }
  }
}
