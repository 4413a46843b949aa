/** The rehearsal clock: which slide was shown when, and which slide each speech segment is checked against. */
module SlideTimings {
  import opened Wrappers

  /** One visit to a slide, in seconds since the start; the last one stays open until stop. */
  datatype Timing = Timing(slideNum: int, start: real, end: Option<real>)

  datatype Visit = Visit(slideNum: int, start: real, end: real)

  datatype Recording = Recording(startedAtMs: real, timings: seq<Timing>)

  function Elapsed(startedAtMs: real, nowMs: real): real { (nowMs - startedAtMs) / 1000.0 }

  // ----- the tracker's three operations on values

  function Started(nowMs: real, slideNum: int): Recording {
    Recording(nowMs, [Timing(slideNum, 0.0, None)])
  }

  function CloseLast(timings: seq<Timing>, at: real): seq<Timing> {
    if timings == [] then []
    else timings[..|timings| - 1] + [timings[|timings| - 1].(end := Some(at))]
  }

  function Switched(r: Recording, nowMs: real, slideNum: int): Recording {
    var at := Elapsed(r.startedAtMs, nowMs);
    r.(timings := CloseLast(r.timings, at) + [Timing(slideNum, at, None)])
  }

  function Stopped(r: Recording, nowMs: real): Recording {
    if r.timings != [] && r.timings[|r.timings| - 1].end.None?
    then r.(timings := CloseLast(r.timings, Elapsed(r.startedAtMs, nowMs)))
    else r
  }

  /** The closed entries, in order. */
  function Closed(timings: seq<Timing>): seq<Visit> {
    if timings == [] then []
    else
      var earlier, last := Closed(timings[..|timings| - 1]), timings[|timings| - 1];
      if last.end.Some? then earlier + [Visit(last.slideNum, last.start, last.end.value)] else earlier
  }

  class SlideTimingTracker {
    var startedAtMs: real
    var timings: seq<Timing>

    constructor ()
      ensures Current() == Recording(0.0, [])
    {
      startedAtMs, timings := 0.0, [];
    }

    function Current(): Recording
      reads this
    {
      Recording(startedAtMs, timings)
    }

    method Start(nowMs: real, initialSlideNum: int)
      modifies this
      ensures Current() == Started(nowMs, initialSlideNum)
    {
      startedAtMs := nowMs;
      timings := [Timing(initialSlideNum, 0.0, None)];
    }

    method SwitchTo(nowMs: real, slideNum: int)
      modifies this
      ensures Current() == Switched(old(Current()), nowMs, slideNum)
    {
      var elapsed := Elapsed(startedAtMs, nowMs);
      if timings != [] {
        var n := |timings| - 1;
        assert timings[n := timings[n].(end := Some(elapsed))] == CloseLast(timings, elapsed);
        timings := timings[n := timings[n].(end := Some(elapsed))];
      }
      timings := timings + [Timing(slideNum, elapsed, None)];
    }

    method Stop(nowMs: real) returns (visits: seq<Visit>)
      modifies this
      ensures Current() == Stopped(old(Current()), nowMs)
      ensures visits == Closed(Current().timings)
    {
      var elapsed := Elapsed(startedAtMs, nowMs);
      if timings != [] {
        var n := |timings| - 1;
        if timings[n].end.None? {
          assert timings[n := timings[n].(end := Some(elapsed))] == CloseLast(timings, elapsed);
          timings := timings[n := timings[n].(end := Some(elapsed))];
        }
      }
      visits := [];
      for i := 0 to |timings|
        invariant visits == Closed(timings[..i])
      {
        assert timings[..i + 1][..i] == timings[..i];
        if timings[i].end.Some? {
          visits := visits + [Visit(timings[i].slideNum, timings[i].start, timings[i].end.value)];
        }
      }
      assert timings[..|timings|] == timings;
    }
  }

  // ----- whole recordings

  /** A page turn: when, and to which slide. */
  datatype Turn = Turn(atMs: real, slideNum: int)

  function AfterTurns(first: Turn, turns: seq<Turn>): Recording {
    if turns == [] then Started(first.atMs, first.slideNum)
    else Switched(AfterTurns(first, turns[..|turns| - 1]), turns[|turns| - 1].atMs, turns[|turns| - 1].slideNum)
  }

  /** What start, the turns, and stop give. */
  function Recorded(first: Turn, turns: seq<Turn>, stopMs: real): seq<Visit> {
    Closed(Stopped(AfterTurns(first, turns), stopMs).timings)
  }

  function TurnAt(first: Turn, turns: seq<Turn>, i: nat): Turn
    requires i <= |turns|
  {
    if i == 0 then first else turns[i - 1]
  }

  /** When visit `i` ends: at the next turn, or at stop. */
  function EndMs(turns: seq<Turn>, stopMs: real, i: nat): real
    requires i <= |turns|
  {
    if i < |turns| then turns[i].atMs else stopMs
  }

  predicate ClockForward(first: Turn, turns: seq<Turn>, stopMs: real) {
    forall i :: 0 <= i <= |turns| ==> TurnAt(first, turns, i).atMs <= EndMs(turns, stopMs, i)
  }

  /** The entry for turn `i` once `turns` have been made: closed at the next one, or still open. */
  function EntryAt(first: Turn, turns: seq<Turn>, i: nat): Timing
    requires i <= |turns|
  {
    Timing(TurnAt(first, turns, i).slideNum, Elapsed(first.atMs, TurnAt(first, turns, i).atMs),
           if i < |turns| then Some(Elapsed(first.atMs, turns[i].atMs)) else None)
  }

  lemma {:induction false} EntryAfterTurn(first: Turn, turns: seq<Turn>, i: nat)
    requires turns != [] && i < |turns|
    ensures var front := turns[..|turns| - 1];
      EntryAt(first, turns, i) ==
        if i < |front| then EntryAt(first, front, i)
        else EntryAt(first, front, i).(end := Some(Elapsed(first.atMs, turns[|turns| - 1].atMs)))
  {
    var front := turns[..|turns| - 1];
    assert TurnAt(first, turns, i) == TurnAt(first, front, i);
  }

  lemma {:induction false} TurnsRecorded(first: Turn, turns: seq<Turn>)
    ensures var r := AfterTurns(first, turns);
      && r.startedAtMs == first.atMs && |r.timings| == |turns| + 1
      && forall i :: 0 <= i <= |turns| ==> r.timings[i] == EntryAt(first, turns, i)
    decreases |turns|
  {
    if turns != [] {
      var front := turns[..|turns| - 1];
      TurnsRecorded(first, front);
      var r := AfterTurns(first, turns);
      forall i | 0 <= i <= |turns|
        ensures r.timings[i] == EntryAt(first, turns, i)
      {
        if i < |turns| {
          EntryAfterTurn(first, turns, i);
        }
      }
    }
  }

  lemma {:induction false} ClosedAll(timings: seq<Timing>)
    requires forall i :: 0 <= i < |timings| ==> timings[i].end.Some?
    ensures |Closed(timings)| == |timings|
    ensures forall i :: 0 <= i < |timings| ==>
      Closed(timings)[i] == Visit(timings[i].slideNum, timings[i].start, timings[i].end.value)
  {
    if timings != [] {
      ClosedAll(timings[..|timings| - 1]);
    }
  }

  /** Visit `i` runs from its turn to the next one, or to stop. */
  lemma {:induction false} RecordedVisits(first: Turn, turns: seq<Turn>, stopMs: real)
    ensures var visits := Recorded(first, turns, stopMs);
      && |visits| == |turns| + 1
      && forall i :: 0 <= i <= |turns| ==>
           visits[i] == Visit(TurnAt(first, turns, i).slideNum, Elapsed(first.atMs, TurnAt(first, turns, i).atMs),
                              Elapsed(first.atMs, EndMs(turns, stopMs, i)))
  {
    TurnsRecorded(first, turns);
    ClosedAll(Stopped(AfterTurns(first, turns), stopMs).timings);
  }

  /** Stopping again changes nothing: the visits keep the ends of the first stop. */
  lemma {:induction false} StoppingTwice(first: Turn, turns: seq<Turn>, stopMs: real, againMs: real)
    ensures var stopped := Stopped(AfterTurns(first, turns), stopMs);
      Stopped(stopped, againMs) == stopped && Closed(Stopped(stopped, againMs).timings) == Recorded(first, turns, stopMs)
  {
    TurnsRecorded(first, turns);
  }

  /** The visits tile an interval: each starts where the one before it ends, and none runs backwards. */
  ghost predicate Tiles(visits: seq<Visit>, from: real, to: real) {
    && visits != [] && visits[0].start == from && visits[|visits| - 1].end == to
    && (forall i :: 0 <= i < |visits| - 1 ==> visits[i].end == visits[i + 1].start)
    && (forall i :: 0 <= i < |visits| ==> visits[i].start <= visits[i].end)
  }

  lemma {:induction false} RecordingTiles(first: Turn, turns: seq<Turn>, stopMs: real)
    requires ClockForward(first, turns, stopMs)
    ensures Tiles(Recorded(first, turns, stopMs), 0.0, Elapsed(first.atMs, stopMs))
  {
    RecordedVisits(first, turns, stopMs);
    var visits := Recorded(first, turns, stopMs);
    forall i | 0 <= i < |visits| - 1
      ensures visits[i].end == visits[i + 1].start
    {
      assert TurnAt(first, turns, i + 1) == turns[i];
    }
  }

  function TotalTime(visits: seq<Visit>): real {
    if visits == [] then 0.0 else TotalTime(visits[..|visits| - 1]) + (visits[|visits| - 1].end - visits[|visits| - 1].start)
  }

  lemma {:induction false} TilesTotal(visits: seq<Visit>, from: real, to: real)
    requires Tiles(visits, from, to)
    ensures TotalTime(visits) == to - from
    decreases |visits|
  {
    if |visits| > 1 {
      var n := |visits| - 1;
      TilesTotal(visits[..n], from, visits[n - 1].end);
    } else {
      assert visits[..0] == [];
    }
  }

  /** Tiles are in time order. */
  lemma {:induction false} TilesOrdered(visits: seq<Visit>, from: real, to: real, i: nat, j: nat)
    requires Tiles(visits, from, to) && i < j < |visits|
    ensures visits[i].end <= visits[j].start
    decreases j
  {
    if i < j - 1 {
      TilesOrdered(visits, from, to, i, j - 1);
    }
  }

  /** Every moment of a tiled interval falls in a visit. */
  lemma {:induction false} TilesCover(visits: seq<Visit>, from: real, to: real, t: real) returns (i: nat)
    requires Tiles(visits, from, to) && from <= t < to
    ensures i < |visits| && visits[i].start <= t < visits[i].end
    decreases |visits|
  {
    var n := |visits| - 1;
    if visits[n].start <= t {
      i := n;
    } else {
      assert n > 0;
      i := TilesCover(visits[..n], from, visits[n - 1].end, t);
    }
  }

  // ----- windows

  /** Half-open speech windows by slide; a later visit to a slide replaces an earlier one. */
  function Windows(visits: seq<Visit>): map<int, (real, real)> {
    if visits == [] then map[]
    else
      var last := visits[|visits| - 1];
      Windows(visits[..|visits| - 1])[last.slideNum := (last.start, last.end)]
  }

  method WindowsFromSlideTimings(visits: seq<Visit>) returns (windows: map<int, (real, real)>)
    ensures windows == Windows(visits)
  {
    windows := map[];
    for i := 0 to |visits|
      invariant windows == Windows(visits[..i])
    {
      assert visits[..i + 1][..i] == visits[..i];
      windows := windows[visits[i].slideNum := (visits[i].start, visits[i].end)];
    }
    assert visits[..|visits|] == visits;
  }

  /** The visit is its slide's last. */
  predicate LastVisit(visits: seq<Visit>, i: nat)
    requires i < |visits|
  {
    forall j :: i < j < |visits| ==> visits[j].slideNum != visits[i].slideNum
  }

  /** A segment starting at `t` is checked against a slide when it starts inside the slide's window. */
  predicate Matches(window: (real, real), t: real) {
    window.0 <= t < window.1
  }

  /** The starts of the segments that fall in a window, in transcript order. */
  function Heard(starts: seq<real>, window: (real, real)): seq<real> {
    Filter(starts, t => Matches(window, t))
  }

  /** What the model is asked to compare with a slide: nothing when the slide was never shown, when no segment
      falls in its window, or when it has no text; `withText` holds the slides whose text is not blank. */
  function SpeechSent(visits: seq<Visit>, withText: set<int>, starts: seq<real>, slideNum: int): seq<real> {
    if slideNum !in Windows(visits) then []
    else
      var matched := Heard(starts, Windows(visits)[slideNum]);
      if matched == [] || slideNum !in withText then [] else matched
  }

  /** A segment starting at `t` is checked against a slide. */
  predicate CheckedAgainst(visits: seq<Visit>, withText: set<int>, slideNum: int, t: real) {
    slideNum in Windows(visits) && Matches(Windows(visits)[slideNum], t) && slideNum in withText
  }

  /** It is checked against some slide. */
  ghost predicate Checked(visits: seq<Visit>, withText: set<int>, t: real) {
    exists s :: CheckedAgainst(visits, withText, s, t)
  }

  /** The segments sent with a slide are exactly those checked against it. */
  lemma {:induction false} SentIffChecked(visits: seq<Visit>, withText: set<int>, starts: seq<real>, slideNum: int, t: real)
    ensures t in SpeechSent(visits, withText, starts, slideNum)
       <==> t in starts && CheckedAgainst(visits, withText, slideNum, t)
  {
    if slideNum in Windows(visits) {
      var window := Windows(visits)[slideNum];
      FilterMember(starts, t => Matches(window, t), t);
    }
  }

  /** A slide's window is its last visit. */
  lemma {:induction false} WindowIsLastVisit(visits: seq<Visit>, slideNum: int)
    ensures slideNum in Windows(visits) <==> exists i :: 0 <= i < |visits| && visits[i].slideNum == slideNum
    ensures slideNum in Windows(visits) ==>
      exists i :: 0 <= i < |visits| && visits[i].slideNum == slideNum && LastVisit(visits, i)
             && Windows(visits)[slideNum] == (visits[i].start, visits[i].end)
  {
    if visits != [] {
      var n := |visits| - 1;
      WindowIsLastVisit(visits[..n], slideNum);
      if visits[n].slideNum == slideNum {
        assert LastVisit(visits, n);
      } else if slideNum in Windows(visits) {
        var i :| 0 <= i < n && visits[..n][i].slideNum == slideNum && LastVisit(visits[..n], i)
                 && Windows(visits[..n])[slideNum] == (visits[..n][i].start, visits[..n][i].end);
        assert visits[i].slideNum == slideNum && LastVisit(visits, i);
      }
    }
  }

  /** The windows of a tiled recording are pairwise disjoint: a segment is checked against at most one slide. */
  lemma {:induction false} AtMostOneSlide(visits: seq<Visit>, withText: set<int>, from: real, to: real, t: real, s1: int, s2: int)
    requires Tiles(visits, from, to)
    requires CheckedAgainst(visits, withText, s1, t) && CheckedAgainst(visits, withText, s2, t)
    ensures s1 == s2
  {
    WindowIsLastVisit(visits, s1);
    WindowIsLastVisit(visits, s2);
    var i :| 0 <= i < |visits| && visits[i].slideNum == s1 && Windows(visits)[s1] == (visits[i].start, visits[i].end);
    var j :| 0 <= j < |visits| && visits[j].slideNum == s2 && Windows(visits)[s2] == (visits[j].start, visits[j].end);
    if i < j {
      TilesOrdered(visits, from, to, i, j);
    } else if j < i {
      TilesOrdered(visits, from, to, j, i);
    }
  }

  /** A segment spoken during visit `i` is checked, and then against the slide then shown, exactly when the slide
      is not visited again later and has text. */
  lemma {:induction false} CheckedIffLastVisit(visits: seq<Visit>, withText: set<int>, from: real, to: real, t: real, i: nat)
    requires Tiles(visits, from, to) && i < |visits| && visits[i].start <= t < visits[i].end
    ensures Checked(visits, withText, t) <==> LastVisit(visits, i) && visits[i].slideNum in withText
    ensures forall s :: CheckedAgainst(visits, withText, s, t) ==> s == visits[i].slideNum
  {
    var s := visits[i].slideNum;
    WindowIsLastVisit(visits, s);
    if LastVisit(visits, i) {
      var k :| 0 <= k < |visits| && visits[k].slideNum == s && LastVisit(visits, k)
               && Windows(visits)[s] == (visits[k].start, visits[k].end);
      assert k == i;
      assert s in withText ==> CheckedAgainst(visits, withText, s, t);
    }
    forall other | CheckedAgainst(visits, withText, other, t)
      ensures other == s && LastVisit(visits, i)
    {
      WindowIsLastVisit(visits, other);
      var k :| 0 <= k < |visits| && visits[k].slideNum == other && LastVisit(visits, k)
               && Windows(visits)[other] == (visits[k].start, visits[k].end);
      if k < i {
        TilesOrdered(visits, from, to, k, i);
      } else if i < k {
        TilesOrdered(visits, from, to, i, k);
      }
    }
  }

  predicate NoRevisits(visits: seq<Visit>) {
    forall i, j :: 0 <= i < j < |visits| ==> visits[i].slideNum != visits[j].slideNum
  }

  /** Over a whole recording a segment that starts during it is checked against at most one slide, and against
      exactly one when no slide was revisited and every visited slide has text. */
  lemma {:induction false} SegmentsChecked(first: Turn, turns: seq<Turn>, stopMs: real, withText: set<int>, t: real)
    requires ClockForward(first, turns, stopMs) && 0.0 <= t < Elapsed(first.atMs, stopMs)
    ensures var visits := Recorded(first, turns, stopMs);
      && (forall s1, s2 :: CheckedAgainst(visits, withText, s1, t) && CheckedAgainst(visits, withText, s2, t) ==> s1 == s2)
      && (NoRevisits(visits) && (forall i :: 0 <= i < |visits| ==> visits[i].slideNum in withText) ==>
            Checked(visits, withText, t))
  {
    RecordingTiles(first, turns, stopMs);
    var visits, to := Recorded(first, turns, stopMs), Elapsed(first.atMs, stopMs);
    forall s1, s2 | CheckedAgainst(visits, withText, s1, t) && CheckedAgainst(visits, withText, s2, t)
      ensures s1 == s2
    {
      AtMostOneSlide(visits, withText, 0.0, to, t, s1, s2);
    }
    var i := TilesCover(visits, 0.0, to, t);
    CheckedIffLastVisit(visits, withText, 0.0, to, t, i);
  }

  /** Every moment of the recording is checked. */
  ghost predicate AllChecked(visits: seq<Visit>, withText: set<int>, to: real) {
    forall t :: 0.0 <= t < to ==> Checked(visits, withText, t)
  }

  /** No moment of a recording goes unchecked exactly when every visit that took any time was its slide's last
      and showed a slide with text. */
  lemma {:induction false} AllCheckedIff(first: Turn, turns: seq<Turn>, stopMs: real, withText: set<int>)
    requires ClockForward(first, turns, stopMs)
    ensures var visits := Recorded(first, turns, stopMs);
      AllChecked(visits, withText, Elapsed(first.atMs, stopMs)) <==>
        forall i :: 0 <= i < |visits| && visits[i].start < visits[i].end ==>
          LastVisit(visits, i) && visits[i].slideNum in withText
  {
    RecordingTiles(first, turns, stopMs);
    var visits, to := Recorded(first, turns, stopMs), Elapsed(first.atMs, stopMs);
    if AllChecked(visits, withText, to) {
      forall i | 0 <= i < |visits| && visits[i].start < visits[i].end
        ensures LastVisit(visits, i) && visits[i].slideNum in withText
      {
        TilesInside(visits, 0.0, to, i);
        CheckedIffLastVisit(visits, withText, 0.0, to, visits[i].start, i);
      }
    } else {
      var t :| 0.0 <= t < to && !Checked(visits, withText, t);
      var i := TilesCover(visits, 0.0, to, t);
      CheckedIffLastVisit(visits, withText, 0.0, to, t, i);
    }
  }

  lemma {:induction false} TilesInside(visits: seq<Visit>, from: real, to: real, i: nat)
    requires Tiles(visits, from, to) && i < |visits|
    ensures from <= visits[i].start && visits[i].end <= to
  {
    if i > 0 {
      TilesOrdered(visits, from, to, 0, i);
    }
    if i < |visits| - 1 {
      TilesOrdered(visits, from, to, i, |visits| - 1);
    }
  }

  /** Slide 1, slide 2, slide 1 again, a second each: what is said in the first half second is checked against no
      slide, whatever text they have. */
  lemma {:induction false} RevisitHidesFirstVisit(withText: set<int>)
    ensures var visits := Recorded(Turn(0.0, 1), [Turn(1000.0, 2), Turn(2000.0, 1)], 3000.0);
      Tiles(visits, 0.0, 3.0) && !Checked(visits, withText, 0.5)
  {
    var first, turns := Turn(0.0, 1), [Turn(1000.0, 2), Turn(2000.0, 1)];
    var visits := Recorded(first, turns, 3000.0);
    RecordedVisits(first, turns, 3000.0);
    RecordingTiles(first, turns, 3000.0);
    assert visits[2].slideNum == TurnAt(first, turns, 2).slideNum == 1 && visits[0].slideNum == 1;
    CheckedIffLastVisit(visits, withText, 0.0, 3.0, 0.5, 0);
  }

  /** A recording of one slide without text is checked nowhere, though no slide is revisited. */
  lemma {:induction false} BlankSlideHidesSpeech(t: real)
    requires 0.0 <= t < 1.0
    ensures var visits := Recorded(Turn(0.0, 1), [], 1000.0);
      NoRevisits(visits) && Tiles(visits, 0.0, 1.0) && !Checked(visits, {}, t)
  {
    RecordedVisits(Turn(0.0, 1), [], 1000.0);
    RecordingTiles(Turn(0.0, 1), [], 1000.0);
  }

  /** Durations add up to the recording's length. */
  lemma {:induction false} DurationsAddUp(first: Turn, turns: seq<Turn>, stopMs: real)
    requires ClockForward(first, turns, stopMs)
    ensures TotalTime(Recorded(first, turns, stopMs)) == Elapsed(first.atMs, stopMs)
  {
    RecordingTiles(first, turns, stopMs);
    TilesTotal(Recorded(first, turns, stopMs), 0.0, Elapsed(first.atMs, stopMs));
  }
}
