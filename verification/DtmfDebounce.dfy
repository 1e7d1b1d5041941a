/**
 The debounce of in-band digits in the RTP sender (src/media.rs).  Per frame the inputs are
 whether a locally generated tone is pending and what the detector hears.
 */
module DtmfDebounce {
  import opened Util

  const FRAMES: nat := 3

  const GUARD: nat := 25

  datatype State = State(candidate: Option<char>, streak: nat, reported: Option<char>, gap: nat, guard: nat)

  const INITIAL: State := State(None, 0, None, 0, 0)

  /** Addition on a byte that stops at 255. */
  function Saturating(n: nat): nat {
    if n < 255 then n + 1 else 255
  }

  function Guarded(guard: nat, pending: bool): nat {
    if pending then GUARD else if guard > 0 then guard - 1 else 0
  }

  /** A frame the detector is allowed to look at. */
  function Look(s: State, heard: Option<char>): (State, Option<char>) {
    match heard
    case Some(d) =>
      var streak := if s.candidate == Some(d) then Saturating(s.streak) else 1;
      var report := streak >= FRAMES && s.reported != Some(d);
      (State(Some(d), streak, if report then Some(d) else s.reported, 0, s.guard), if report then Some(d) else None)
    case None =>
      var gap := Saturating(s.gap);
      (if gap >= 2 then State(None, 0, None, gap, s.guard) else s.(gap := gap), None)
  }

  function Step(s: State, pending: bool, heard: Option<char>): (State, Option<char>) {
    var t := s.(guard := Guarded(s.guard, pending));
    if t.guard == 0 then Look(t, heard) else (t, None)
  }

  // --------------------------------------------------------------------- runs

  /** The frames so far, the latest outermost. */
  datatype Run = Start | Frame(past: Run, pending: bool, heard: Option<char>)

  function Reached(r: Run): State {
    match r
    case Start => INITIAL
    case Frame(past, pending, heard) => Step(Reached(past), pending, heard).0
  }

  /** Digit reported in the latest frame. */
  function Report(r: Run): Option<char> {
    match r
    case Start => None
    case Frame(past, pending, heard) => Step(Reached(past), pending, heard).1
  }

  /** A tone was pending in the latest frame or one of the `n` before it. */
  predicate PendingWithin(r: Run, n: nat) {
    match r
    case Start => false
    case Frame(past, pending, _) => pending || (n > 0 && PendingWithin(past, n - 1))
  }

  /** The detector looks at the latest frame. */
  predicate Visible(r: Run)
  {
    r.Frame? && !PendingWithin(r, GUARD - 1)
  }

  /** What the detector heard, frame by visible frame. */
  function Heard(r: Run): seq<Option<char>> {
    match r
    case Start => []
    case Frame(past, _, heard) => if Visible(r) then Heard(past) + [heard] else Heard(past)
  }

  /** What was reported, frame by visible frame. */
  function Reports(r: Run): (s: seq<Option<char>>)
    ensures |s| == |Heard(r)|
  {
    match r
    case Start => []
    case Frame(past, _, _) => if Visible(r) then Reports(past) + [Report(r)] else Reports(past)
  }

  // --------------------------------------------------------------------- mute

  lemma {:induction false} GuardMeans(r: Run, n: nat)
    requires n < GUARD
    ensures PendingWithin(r, n) <==> Reached(r).guard >= GUARD - n
    ensures Reached(r).guard <= GUARD
    decreases r
  {
    hide Look;
    if r.Frame? {
      GuardMeans(r.past, if n > 0 then n - 1 else 0);
      LookKeepsGuard(Reached(r.past).(guard := Guarded(Reached(r.past).guard, r.pending)), r.heard);
    }
  }

  lemma LookKeepsGuard(s: State, heard: Option<char>)
    ensures Look(s, heard).0.guard == s.guard
  {
  }

  /** A frame is muted exactly when a tone is pending in it or was in one of the 24 before, and then nothing is reported. */
  lemma MutedExactly(r: Run)
    requires r.Frame?
    ensures PendingWithin(r, 24) <==> Reached(r).guard > 0
    ensures PendingWithin(r, 24) ==> Report(r) == None && Heard(r) == Heard(r.past)
  {
    hide Look;
    GuardMeans(r, 24);
    LookKeepsGuard(Reached(r.past).(guard := Guarded(Reached(r.past).guard, r.pending)), r.heard);
  }

  // ---------------------------------------------------------------- reference

  predicate DoubleMiss(v: seq<Option<char>>) {
    |v| >= 2 && v[|v| - 1] == None && v[|v| - 2] == None
  }

  /** Hits of `d` since the last other digit or double miss. */
  function Streak(v: seq<Option<char>>, d: char): nat {
    if v == [] then 0
    else
      var k := |v| - 1;
      if v[k] == Some(d) then Streak(v[..k], d) + 1
      else if v[k].Some? || DoubleMiss(v) then 0
      else Streak(v[..k], d)
  }

  /** The last report that no double miss has wiped out. */
  function Remembered(v: seq<Option<char>>, r: seq<Option<char>>): Option<char>
    requires |v| == |r|
  {
    if v == [] || DoubleMiss(v) then None
    else
      var k := |v| - 1;
      if r[k].Some? then r[k] else Remembered(v[..k], r[..k])
  }

  function Capped(n: nat): nat {
    if n < 255 then n else 255
  }

  predicate LastMissed(v: seq<Option<char>>) {
    v != [] && v[|v| - 1] == None
  }

  /** The automaton's fields, in terms of what was heard and reported. */
  predicate Faithful(s: State, v: seq<Option<char>>, r: seq<Option<char>>)
    requires |v| == |r|
  {
    && (s.gap >= 1 <==> LastMissed(v))
    && (s.gap >= 2 <==> DoubleMiss(v))
    && (forall d :: Capped(Streak(v, d)) == if s.candidate == Some(d) then s.streak else 0)
    && s.reported == Remembered(v, r)
  }

  lemma StreakSnoc(v: seq<Option<char>>, h: Option<char>, d: char)
    ensures Streak(v + [h], d) ==
            if h == Some(d) then Streak(v, d) + 1 else if h.Some? || LastMissed(v) then 0 else Streak(v, d)
  {
    assert (v + [h])[..|v|] == v;
  }

  lemma RememberedSnoc(v: seq<Option<char>>, r: seq<Option<char>>, h: Option<char>, x: Option<char>)
    requires |v| == |r| && (h.None? ==> x.None?)
    ensures Remembered(v + [h], r + [x]) ==
            if x.Some? then x else if h.None? && LastMissed(v) then None else Remembered(v, r)
  {
    assert (v + [h])[..|v|] == v && (r + [x])[..|r|] == r;
  }

  lemma LookIsFaithful(s: State, v: seq<Option<char>>, r: seq<Option<char>>, heard: Option<char>)
    requires |v| == |r| && Faithful(s, v, r)
    ensures var (t, x) := Look(s, heard); Faithful(t, v + [heard], r + [x])
    ensures var (t, x) := Look(s, heard);
            forall d :: x == Some(d) <==> heard == Some(d) && Streak(v + [heard], d) >= FRAMES && Remembered(v, r) != Some(d)
  {
    hide Streak, Remembered;
    var (t, x) := Look(s, heard);
    forall d
      ensures Streak(v + [heard], d) ==
              if heard == Some(d) then Streak(v, d) + 1 else if heard.Some? || LastMissed(v) then 0 else Streak(v, d)
    {
      StreakSnoc(v, heard, d);
    }
    RememberedSnoc(v, r, heard, x);
  }

  lemma {:induction false} RunIsFaithful(r: Run)
    ensures Faithful(Reached(r), Heard(r), Reports(r))
  {
    match r {
      case Start =>
      case Frame(past, pending, heard) =>
        hide Faithful, Look;
        RunIsFaithful(past);
        var s := Reached(past);
        var g := s.(guard := Guarded(s.guard, pending));
        FaithfulIgnoresGuard(s, g, Heard(past), Reports(past));
        MutedExactly(r);
        LookKeepsGuard(g, heard);
        LookIsFaithful(g, Heard(past), Reports(past), heard);
    }
  }

  lemma FaithfulIgnoresGuard(s: State, g: State, v: seq<Option<char>>, r: seq<Option<char>>)
    requires |v| == |r| && Faithful(s, v, r) && g == s.(guard := g.guard)
    ensures Faithful(g, v, r)
  {
  }

  /** A digit is reported exactly when it is heard for the third time in its stretch and is not the one remembered. */
  lemma ReportExactly(r: Run, d: char)
    requires Visible(r)
    ensures Report(r) == Some(d) <==>
            r.heard == Some(d) && Streak(Heard(r), d) >= FRAMES && Remembered(Heard(r.past), Reports(r.past)) != Some(d)
  {
    hide Faithful, Look, Streak, Remembered;
    RunIsFaithful(r.past);
    var s := Reached(r.past);
    var g := s.(guard := Guarded(s.guard, r.pending));
    FaithfulIgnoresGuard(s, g, Heard(r.past), Reports(r.past));
    MutedExactly(r);
    LookKeepsGuard(g, r.heard);
    LookIsFaithful(g, Heard(r.past), Reports(r.past), r.heard);
  }

  // -------------------------------------------------------- what that means

  /** No other digit and no two misses in a row from `i` to `k`. */
  predicate Unbroken(v: seq<Option<char>>, d: char, i: nat, k: nat)
    requires i <= k < |v|
  {
    && (forall j :: i <= j <= k ==> v[j] == None || v[j] == Some(d))
    && (forall j :: i <= j < k ==> v[j] != None || v[j + 1] != None)
  }

  /** `n` hits since the stretch began: the first of them, with nothing breaking the stretch after it. */
  lemma {:induction false} StreakStarts(v: seq<Option<char>>, d: char, n: nat) returns (i: nat)
    requires 1 <= n <= Streak(v, d)
    ensures i < |v| && v[i] == Some(d) && Unbroken(v, d, i, |v| - 1)
    ensures Streak(v[..i], d) + n == Streak(v, d)
    decreases |v|
  {
    var k := |v| - 1;
    if v[k] == Some(d) && n == 1 {
      i := k;
    } else {
      var w := v[..k];
      i := StreakStarts(w, d, if v[k] == Some(d) then n - 1 else n);
      assert w[..i] == v[..i];
      assert Unbroken(v, d, i, k) by {
        assert forall j :: i <= j < k ==> w[j] == v[j];
        assert v[k] == None ==> v[k - 1] != None;
      }
    }
  }

  /** Behind every report of `d` are three visible hits of `d`, the last in that frame, with nothing breaking them up. */
  lemma ReportNeedsThreeHits(r: Run, d: char) returns (i: nat, j: nat)
    requires Visible(r) && Report(r) == Some(d)
    ensures var v := Heard(r); var k := |v| - 1;
            i < j < k && v[i] == Some(d) && v[j] == Some(d) && v[k] == Some(d) && Unbroken(v, d, i, k)
  {
    hide Report, Remembered, Streak;
    ReportExactly(r, d);
    var v := Heard(r);
    i := StreakStarts(v, d, 3);
    j := StreakStarts(v, d, 2);
    var k := StreakStarts(v, d, 1);
    StreakGrows(v, d, i, j);
    StreakGrows(v, d, j, k);
  }

  /** Within an unbroken stretch the earlier hit is the one with fewer hits before it. */
  lemma StreakGrows(v: seq<Option<char>>, d: char, i: nat, j: nat)
    requires i < |v| && j < |v| && Streak(v[..i], d) < Streak(v[..j], d)
    requires Unbroken(v, d, j, |v| - 1) && v[j] == Some(d)
    ensures i < j
  {
    StreakMonotone(v, d, j, i);
  }

  lemma {:induction false} StreakMonotone(v: seq<Option<char>>, d: char, i: nat, j: nat)
    requires i < |v| && j < |v| && Unbroken(v, d, i, |v| - 1) && v[i] != None
    ensures i <= j ==> Streak(v[..i], d) <= Streak(v[..j], d)
    decreases j
  {
    if i < j {
      StreakMonotone(v, d, i, j - 1);
      var w := v[..j];
      assert w[..j - 1] == v[..j - 1];
      assert w[j - 1] == v[j - 1];
    }
  }

  /** A report at visible frame `i` is remembered until another report or a double miss. */
  lemma {:induction false} RememberedUntil(v: seq<Option<char>>, r: seq<Option<char>>, i: nat, d: char)
    requires |v| == |r| && i < |v| && r[i] == Some(d) && v[i] == Some(d)
    requires forall j :: i < j < |v| ==> r[j] == None || r[j] == Some(d)
    requires forall j :: i < j < |v| - 1 ==> v[j] != None || v[j + 1] != None
    ensures Remembered(v, r) == Some(d)
    decreases |v|
  {
    var k := |v| - 1;
    if i < k && r[k] == None {
      RememberedUntil(v[..k], r[..k], i, d);
    }
  }

  predicate OtherReport(x: seq<Option<char>>, i: nat, d: char) {
    exists j :: i < j < |x| && x[j].Some? && x[j] != Some(d)
  }

  predicate DoubleMissAfter(v: seq<Option<char>>, i: nat) {
    exists j :: i < j < |v| - 1 && v[j] == None && v[j + 1] == None
  }

  /** Two reports of `d` have another digit's report or two misses in a row between them. */
  lemma ReportsAreSeparated(r: Run, i: nat, d: char)
    requires Visible(r) && Report(r) == Some(d) && i < |Heard(r.past)| && Reports(r.past)[i] == Some(d)
    ensures OtherReport(Reports(r.past), i, d) || DoubleMissAfter(Heard(r.past), i)
  {
    hide Report, Streak, Remembered;
    ReportExactly(r, d);
    ReportedWasHeard(r.past, i);
    var v, x := Heard(r.past), Reports(r.past);
    if !OtherReport(x, i, d) && !DoubleMissAfter(v, i) {
      RememberedUntil(v, x, i, d);
    }
  }

  /** Nothing is reported that was not heard in that very frame. */
  lemma {:induction false} ReportedWasHeard(r: Run, i: nat)
    requires i < |Heard(r)| && Reports(r)[i].Some?
    ensures Heard(r)[i] == Reports(r)[i]
  {
    hide Report;
    if Visible(r) && i == |Heard(r)| - 1 {
      ReportExactly(r, Reports(r)[i].value);
    } else {
      ReportedWasHeard(r.past, i);
    }
  }

  /** A digit heard in three visible frames in a row has been reported by the last of them. */
  lemma ThreeHitsAreReported(r: Run, d: char)
    requires Visible(r) && |Heard(r)| >= 3
    requires var v := Heard(r); var k := |v| - 1; v[k] == Some(d) && v[k - 1] == Some(d) && v[k - 2] == Some(d)
    ensures Remembered(Heard(r), Reports(r)) == Some(d)
  {
    hide Report, Remembered;
    ReportExactly(r, d);
    var v, x := Heard(r.past), Reports(r.past);
    var k := |v|;
    assert Heard(r)[..k] == v && v[..k - 1][..k - 2] == v[..k - 2];
    assert Streak(v, d) == Streak(v[..k - 1], d) + 1;
    assert Streak(v[..k - 1], d) == Streak(v[..k - 2], d) + 1;
    assert Streak(Heard(r), d) >= 3;
    NoOtherReport(r, d);
    RememberedSnoc(v, x, r.heard, Report(r));
  }

  lemma NoOtherReport(r: Run, d: char)
    requires Visible(r) && r.heard == Some(d)
    ensures Report(r) == None || Report(r) == Some(d)
  {
    if Report(r).Some? {
      ReportExactly(r, Report(r).value);
    }
  }

  /** The three hits need not be consecutive frames: single misses between them do not reset the count. */
  lemma HitsWithGapsAreReported()
    ensures var hit := Some('5'); var one := Frame(Frame(Start, false, hit), false, None);
            var two := Frame(Frame(one, false, hit), false, None);
            Report(Frame(two, false, hit)) == hit
  {
    var hit := Some('5');
    var one := Frame(Frame(Start, false, hit), false, None);
    var two := Frame(Frame(one, false, hit), false, None);
    assert Reached(one) == State(hit, 1, None, 1, 0);
    assert Reached(two) == State(hit, 2, None, 1, 0);
  }

  // ------------------------------------------------------------ the sender's loop

  class Detector {
    var candidate: Option<char>
    var streak: nat
    var reported: Option<char>
    var gap: nat
    var guard: nat

    ghost function View(): State
      reads this
    {
      State(candidate, streak, reported, gap, guard)
    }

    constructor ()
      ensures View() == INITIAL
    {
      candidate, streak, reported, gap, guard := None, 0, None, 0, 0;
    }

    method OnFrame(pending: bool, heard: Option<char>) returns (report: Option<char>)
      modifies this
      ensures (View(), report) == Step(old(View()), pending, heard)
    {
      report := None;
      if pending {
        guard := GUARD;
      } else if guard > 0 {
        guard := guard - 1;
      }
      if guard != 0 { return; }
      match heard {
        case Some(d) =>
          gap := 0;
          if candidate == Some(d) {
            streak := Saturating(streak);
          } else {
            candidate, streak := Some(d), 1;
          }
          if streak >= FRAMES && reported != Some(d) {
            reported, report := Some(d), Some(d);
          }
        case None =>
          gap := Saturating(gap);
          if gap >= 2 {
            candidate, streak, reported := None, 0, None;
          }
      }
    }

    /** The loop over frames, tied to the run it performs. */
    method Listen(frames: seq<(bool, Option<char>)>) returns (reports: seq<Option<char>>, ghost run: Run)
      requires View() == INITIAL
      modifies this
      ensures View() == Reached(run) && |reports| == |frames| && Matches(run, frames, reports)
    {
      reports, run := [], Start;
      for i := 0 to |frames|
        invariant View() == Reached(run) && |reports| == i && Matches(run, frames[..i], reports)
      {
        var x := OnFrame(frames[i].0, frames[i].1);
        assert frames[..i + 1][..i] == frames[..i] && (reports + [x])[..i] == reports;
        reports, run := reports + [x], Frame(run, frames[i].0, frames[i].1);
      }
      assert frames[..|frames|] == frames;
    }
  }

  /** The run is these frames, and these were its reports. */
  ghost predicate Matches(run: Run, frames: seq<(bool, Option<char>)>, reports: seq<Option<char>>)
    requires |frames| == |reports|
  {
    match run
    case Start => frames == []
    case Frame(past, pending, heard) =>
      && frames != []
      && var k := |frames| - 1;
      && frames[k] == (pending, heard) && reports[k] == Report(run) && Matches(past, frames[..k], reports[..k])
  }
}
