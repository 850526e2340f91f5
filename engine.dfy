/**
 * `RaceTimerState` and the state updates of `RaceTimerViewModel`: each
 * `_state.update { ... }` block is a function from the old state (and the
 * clock reading or freshly generated id it uses) to the new one. Every update
 * keeps `Valid`: well-formed lanes numbered 1..N with distinct ids, and a
 * strictly ascending list of positive custom rest presets.
 */
module Engine {
  import opened Wrappers
  import opened Text
  import opened Seqs
  import opened Models
  import opened Lanes

  datatype DialogType =
    | ThemeSelector | CountdownDialog | RestTimerDialog | SavePresetDialog | LoadPresetDialog
    | ShareDialog | AddPaceDialog | AddNoteDialog | ManageMarkersDialog

  datatype RaceTimerState = RaceTimerState(
    lanes: seq<Lane>,
    raceState: RaceState,
    countdownSeconds: int,
    countdownRemaining: int,
    restTimerSeconds: int,
    restTimerRemaining: int,
    isRestTimerRunning: bool,
    customRestPresets: seq<int>,
    showLapsInCards: bool,
    theme: AppTheme,
    colorPalette: string,
    presets: seq<TimerPreset>,
    paceMarkers: seq<PaceMarker>,
    coachNotes: seq<CoachNote>,
    expandedLaneId: Option<string>,
    showThemeSelector: bool,
    showMenuDropdown: bool,
    showCountdownDialog: bool,
    showRestTimerDialog: bool,
    showSavePresetDialog: bool,
    showLoadPresetDialog: bool,
    showShareDialog: bool,
    showRenameLaneDialog: Option<string>,
    showAddPaceDialog: bool,
    showAddNoteDialog: bool,
    showManageMarkersDialog: bool,
    currentTimeMillis: int)

  /** Custom rest presets: positive, sorted, no repeats. */
  predicate RestPresetsValid(p: seq<int>) {
    StrictlyAscending(p) && forall i :: 0 <= i < |p| ==> p[i] > 0
  }

  /** Well-formed lanes, numbered 1..N, with distinct ids. */
  predicate LanesValid(lanes: seq<Lane>) {
    AllValid(lanes) && PositionsInOrder(lanes) && NoDuplicates(Ids(lanes))
  }

  /** The invariant every update keeps. */
  predicate Valid(s: RaceTimerState) {
    LanesValid(s.lanes) && RestPresetsValid(s.customRestPresets)
  }

  /** `RaceTimerState()` with its default values. */
  function InitialState(): (s: RaceTimerState)
    ensures Valid(s) && s.lanes == [] && s.raceState == Idle && s.customRestPresets == []
    ensures s.countdownSeconds == 3 && s.restTimerSeconds == 60 && !s.isRestTimerRunning
  {
    RaceTimerState([], Idle, 3, 0, 60, 0, false, [], true, SystemTheme, "indigo", [], [], [], None,
      false, false, false, false, false, false, false, None, false, false, false, 0)
  }

  /** Lists of lanes that agree lane by lane on everything but timing keep positions, ids, names and colours. */
  lemma SameIdentities(a: seq<Lane>, b: seq<Lane>)
    requires |a| == |b| && forall i :: 0 <= i < |a| ==> SameIdentity(a[i], b[i])
    ensures Ids(a) == Ids(b) && Names(a) == Names(b) && Colors(a) == Colors(b)
    ensures PositionsInOrder(a) ==> PositionsInOrder(b)
  {
  }

  // ---------------------------------------------------------------------------
  // Adding, removing, renaming and reordering lanes

  /**
   * `addLane`: a fresh lane named after its position, appended at position
   * N + 1, in the first colour no lane uses (the palette entry at N + 1
   * modulo ten once all are taken). With a fresh id the invariant holds.
   */
  function AddLane(s: RaceTimerState, id: string): (r: RaceTimerState)
    ensures r == s.(lanes := r.lanes)
    ensures |r.lanes| == |s.lanes| + 1 && r.lanes[..|s.lanes|] == s.lanes
    ensures var l := r.lanes[|s.lanes|];
      && l == NewLane(id, "Lane " + IntToString(|s.lanes| + 1), |s.lanes| + 1, l.color)
      && l.color == NextColor(Colors(s.lanes), |s.lanes| + 1)
    ensures Valid(s) && id !in Ids(s.lanes) ==> Valid(r)
  {
    var n := |s.lanes| + 1;
    var lane := NewLane(id, "Lane " + IntToString(n), n, NextColor(Colors(s.lanes), n));
    AppendLane(s.lanes, lane);
    s.(lanes := s.lanes + [lane])
  }

  /** A stopped lane without laps, appended at the next position under a new id, keeps the lane list valid. */
  lemma AppendLane(lanes: seq<Lane>, lane: Lane)
    ensures (lanes + [lane])[..|lanes|] == lanes
    ensures LanesValid(lanes) && LaneValid(lane) && lane.position == |lanes| + 1 && lane.id !in Ids(lanes)
      ==> LanesValid(lanes + [lane])
  {
    var r := lanes + [lane];
    assert r[..|lanes|] == lanes;
    if LanesValid(lanes) && LaneValid(lane) && lane.position == |lanes| + 1 && lane.id !in Ids(lanes) {
      assert AllValid(r) by {
        forall i | 0 <= i < |r| ensures LaneValid(r[i]) {
          if i < |lanes| { assert r[i] == lanes[i]; }
        }
      }
      forall i, j | 0 <= i < j < |r| ensures Ids(r)[i] != Ids(r)[j] {
        assert Ids(r)[i] == Ids(lanes)[i];
        if j < |lanes| { assert Ids(r)[j] == Ids(lanes)[j]; }
      }
    }
  }

  /** While fewer than ten lanes exist, the new lane's colour is one no lane has yet. */
  lemma AddLaneFreshColor(s: RaceTimerState, id: string)
    requires |s.lanes| < |LaneColors|
    ensures AddLane(s, id).lanes[|s.lanes|].color !in Colors(s.lanes)
  {
    FreeColorExists(Colors(s.lanes));
  }

  /** While there are fewer than ten lanes, adding one keeps the lane colours distinct. */
  lemma AddLaneKeepsColorsDistinct(s: RaceTimerState, id: string)
    requires |s.lanes| < |LaneColors| && NoDuplicates(Colors(s.lanes))
    ensures NoDuplicates(Colors(AddLane(s, id).lanes))
  {
    var r := AddLane(s, id);
    AddLaneFreshColor(s, id);
    var c := Colors(r.lanes);
    forall i, j | 0 <= i < j < |c| ensures c[i] != c[j] {
      if j < |s.lanes| {
        assert c[i] == Colors(s.lanes)[i] && c[j] == Colors(s.lanes)[j];
      } else {
        assert c[i] == Colors(s.lanes)[i];
      }
    }
  }

  /**
   * `removeLane`: the lane with that id is gone, every other lane stays and
   * the lanes are renumbered 1..N; an expanded view of the removed lane closes.
   */
  function RemoveLane(s: RaceTimerState, laneId: string): (r: RaceTimerState)
    ensures r == s.(lanes := r.lanes, expandedLaneId := r.expandedLaneId)
    ensures r.lanes == Renumber(WithoutLane(s.lanes, laneId))
    ensures laneId !in Ids(r.lanes)
    ensures forall i :: 0 <= i < |s.lanes| && s.lanes[i].id != laneId ==> s.lanes[i].id in Ids(r.lanes)
    ensures r.expandedLaneId == (if s.expandedLaneId == Some(laneId) then None else s.expandedLaneId)
    ensures Valid(s) ==> Valid(r)
    ensures forall id :: id in Ids(r.lanes) ==> id in Ids(s.lanes)
    ensures forall t :: AllStartedBy(s.lanes, t) ==> AllStartedBy(r.lanes, t)
  {
    var lanes := Renumber(WithoutLane(s.lanes, laneId));
    RemovedLanes(s.lanes, laneId);
    assert LanesValid(s.lanes) ==> LanesValid(lanes);
    s.(lanes := lanes, expandedLaneId := if s.expandedLaneId == Some(laneId) then None else s.expandedLaneId)
  }

  /** The lane list after a removal: the lane is gone, the others stay, and the list stays valid. */
  lemma RemovedLanes(lanes: seq<Lane>, laneId: string)
    ensures var r := Renumber(WithoutLane(lanes, laneId));
      && laneId !in Ids(r)
      && (forall i :: 0 <= i < |lanes| && lanes[i].id != laneId ==> lanes[i].id in Ids(r))
      && (LanesValid(lanes) ==> LanesValid(r))
      && (forall id :: id in Ids(r) ==> id in Ids(lanes))
      && (forall t :: AllStartedBy(lanes, t) ==> AllStartedBy(r, t))
  {
    var kept := WithoutLane(lanes, laneId);
    var r := Renumber(kept);
    forall i | 0 <= i < |lanes| && lanes[i].id != laneId ensures lanes[i].id in Ids(r) {
      var k :| 0 <= k < |kept| && kept[k] == lanes[i];
      assert Ids(r)[k] == lanes[i].id;
    }
    forall id | id in Ids(r) ensures id in Ids(lanes) {
      var k :| 0 <= k < |r| && Ids(r)[k] == id;
      var j :| 0 <= j < |lanes| && lanes[j] == kept[k];
      assert Ids(lanes)[j] == id;
    }
    forall t | AllStartedBy(lanes, t) ensures AllStartedBy(r, t) {
      forall k | 0 <= k < |r| ensures StartedBy(r[k], t) {
        var j :| 0 <= j < |lanes| && lanes[j] == kept[k];
      }
    }
  }

  /**
   * `renameLane`: the lane with that id takes the trimmed new name unless the
   * new name is blank, in which case it keeps its old one; the rename dialog
   * closes.
   */
  function RenameLane(s: RaceTimerState, laneId: string, newName: string): (r: RaceTimerState)
    ensures r == s.(lanes := r.lanes, showRenameLaneDialog := None)
    ensures |r.lanes| == |s.lanes|
    ensures forall i :: 0 <= i < |s.lanes| ==>
      r.lanes[i] == if s.lanes[i].id == laneId && !IsBlank(newName) then s.lanes[i].(name := Trim(newName)) else s.lanes[i]
    ensures Valid(s) ==> Valid(r)
    ensures Ids(r.lanes) == Ids(s.lanes)
    ensures forall t :: AllStartedBy(s.lanes, t) ==> AllStartedBy(r.lanes, t)
  {
    BlankIffTrimEmpty(newName);
    var lanes := seq(|s.lanes|, i requires 0 <= i < |s.lanes| =>
      var l := s.lanes[i];
      if l.id == laneId then l.(name := if Trim(newName) == [] then l.name else Trim(newName)) else l);
    assert Ids(lanes) == Ids(s.lanes);
    s.(lanes := lanes, showRenameLaneDialog := None)
  }

  /**
   * `reorderLanes`: the lane at `from` moves to `to`, the others keep their
   * order, and positions are renumbered. The list is permuted, not changed,
   * and equal indices change nothing. Kotlin's `removeAt`/`add` demand valid
   * indices otherwise.
   */
  function ReorderLanes(s: RaceTimerState, from: int, to: int): (r: RaceTimerState)
    requires from == to || (0 <= from < |s.lanes| && 0 <= to < |s.lanes|)
    ensures from == to ==> r == s
    ensures from != to ==> r == s.(lanes := MoveLane(s.lanes, from, to))
    ensures Valid(s) ==> Valid(r)
    ensures forall t :: AllStartedBy(s.lanes, t) ==> AllStartedBy(r.lanes, t)
    ensures forall id :: id in Ids(r.lanes) ==> id in Ids(s.lanes)
  {
    if from == to then s
    else s.(lanes := MoveLane(s.lanes, from, to))
  }

  /**
   * The lane list after a move: every lane record moves whole, from the old
   * index `MoveSource` gives, and only its position is renumbered; the moved
   * lane lands at `to`, the ids are permuted as `Move` permutes them, and a
   * valid list stays valid.
   */
  function MoveLane(lanes: seq<Lane>, from: int, to: int): (r: seq<Lane>)
    requires 0 <= from < |lanes| && 0 <= to < |lanes|
    ensures |r| == |lanes| && PositionsInOrder(r)
    ensures forall i :: 0 <= i < |r| ==>
      0 <= MoveSource(i, from, to) < |lanes| && r[i] == lanes[MoveSource(i, from, to)].(position := i + 1)
    ensures r[to] == lanes[from].(position := to + 1)
    ensures Ids(r) == Move(Ids(lanes), from, to) && r[to].id == lanes[from].id
    ensures multiset(Ids(r)) == multiset(Ids(lanes))
    ensures LanesValid(lanes) ==> LanesValid(r)
    ensures forall id :: id in Ids(r) ==> id in Ids(lanes)
    ensures forall t :: AllStartedBy(lanes, t) ==> AllStartedBy(r, t)
  {
    var moved := Move(lanes, from, to);
    MoveIndex(lanes, from, to);
    MoveIndex(Ids(lanes), from, to);
    assert Ids(moved) == Move(Ids(lanes), from, to);
    MovePermutes(Ids(lanes), from, to);
    if NoDuplicates(Ids(lanes)) then
      MoveKeepsDistinct(Ids(lanes), from, to);
      Renumber(moved)
    else
      Renumber(moved)
  }

  /** Moving a lane back where it came from restores the lane list. */
  lemma ReorderUndo(s: RaceTimerState, from: int, to: int)
    requires PositionsInOrder(s.lanes)
    requires from == to || (0 <= from < |s.lanes| && 0 <= to < |s.lanes|)
    ensures ReorderLanes(ReorderLanes(s, from, to), to, from) == s
  {
    if from != to {
      MoveLaneUndo(s.lanes, from, to);
    }
  }

  lemma MoveLaneUndo(lanes: seq<Lane>, from: int, to: int)
    requires PositionsInOrder(lanes) && 0 <= from < |lanes| && 0 <= to < |lanes|
    ensures MoveLane(MoveLane(lanes, from, to), to, from) == lanes
  {
    var once := Move(lanes, from, to);
    calc {
      MoveLane(MoveLane(lanes, from, to), to, from);
      Renumber(Move(Renumber(once), to, from));
      { RenumberAfterMove(once, to, from); }
      Renumber(Move(once, to, from));
      { MoveUndo(lanes, from, to); }
      Renumber(lanes);
      { RenumberedInOrder(lanes); }
      lanes;
    }
  }

  /** Renumbering a list whose positions are already 1..n changes nothing. */
  lemma RenumberedInOrder(lanes: seq<Lane>)
    requires PositionsInOrder(lanes)
    ensures Renumber(lanes) == lanes
  {
  }

  /** Renumbering before a move is undone by the renumbering after it. */
  lemma RenumberAfterMove(lanes: seq<Lane>, from: int, to: int)
    requires 0 <= from < |lanes| && 0 <= to < |lanes|
    ensures Renumber(Move(Renumber(lanes), from, to)) == Renumber(Move(lanes, from, to))
  {
    MoveIndex(lanes, from, to);
    MoveIndex(Renumber(lanes), from, to);
  }

  // ---------------------------------------------------------------------------
  // Starting, stopping, lapping and resetting

  /**
   * `startAll`: every lane runs and the race is running. No lane's elapsed
   * time jumps: a lane already running keeps its start time.
   */
  function StartAll(s: RaceTimerState, now: int): (r: RaceTimerState)
    ensures r == s.(lanes := r.lanes, raceState := Running)
    ensures |r.lanes| == |s.lanes| && forall i :: 0 <= i < |s.lanes| ==> r.lanes[i] == StartLane(s.lanes[i], now)
    ensures Valid(s) ==> Valid(r)
    ensures Valid(s) ==> forall i :: 0 <= i < |r.lanes| ==>
      r.lanes[i].isRunning && r.lanes[i].CurrentElapsedTime(now) == s.lanes[i].CurrentElapsedTime(now)
    ensures AllStartedBy(s.lanes, now) ==> AllStartedBy(r.lanes, now)
    ensures Ids(r.lanes) == Ids(s.lanes)
  {
    s.(lanes := StartEach(s.lanes, now), raceState := Running)
  }

  /** Every lane started. */
  function StartEach(lanes: seq<Lane>, now: int): (r: seq<Lane>)
    ensures |r| == |lanes| && forall i :: 0 <= i < |lanes| ==> r[i] == StartLane(lanes[i], now)
    ensures Ids(r) == Ids(lanes) && (PositionsInOrder(lanes) ==> PositionsInOrder(r))
    ensures AllValid(lanes) ==> AllValid(r)
    ensures AllValid(lanes) ==> forall i :: 0 <= i < |r| ==>
      r[i].isRunning && r[i].CurrentElapsedTime(now) == lanes[i].CurrentElapsedTime(now)
    ensures AllStartedBy(lanes, now) ==> AllStartedBy(r, now)
  {
    var r := seq(|lanes|, i requires 0 <= i < |lanes| => StartLane(lanes[i], now));
    SameIdentities(lanes, r);
    r
  }

  /**
   * `stopAll`: every lane stops with its elapsed time at `now` banked, and
   * the race is paused.
   */
  function StopAll(s: RaceTimerState, now: int): (r: RaceTimerState)
    ensures r == s.(lanes := r.lanes, raceState := Paused)
    ensures |r.lanes| == |s.lanes| && forall i :: 0 <= i < |s.lanes| ==> r.lanes[i] == StopLane(s.lanes[i], now)
    ensures forall i :: 0 <= i < |r.lanes| ==> r.lanes[i].CurrentElapsedTime(now) == s.lanes[i].CurrentElapsedTime(now)
    ensures Valid(s) ==> forall i :: 0 <= i < |r.lanes| ==> !r.lanes[i].isRunning
    ensures Valid(s) && AllStartedBy(s.lanes, now) ==> Valid(r)
    ensures AllStartedBy(r.lanes, now)
    ensures Ids(r.lanes) == Ids(s.lanes)
  {
    s.(lanes := StopEach(s.lanes, now), raceState := Paused)
  }

  /** Every lane stopped, banking its elapsed time. */
  function StopEach(lanes: seq<Lane>, now: int): (r: seq<Lane>)
    ensures |r| == |lanes| && forall i :: 0 <= i < |lanes| ==> r[i] == StopLane(lanes[i], now)
    ensures forall i :: 0 <= i < |r| ==> r[i].CurrentElapsedTime(now) == lanes[i].CurrentElapsedTime(now)
    ensures Ids(r) == Ids(lanes) && (PositionsInOrder(lanes) ==> PositionsInOrder(r))
    ensures AllValid(lanes) ==> forall i :: 0 <= i < |r| ==> !r[i].isRunning
    ensures AllValid(lanes) && AllStartedBy(lanes, now) ==> AllValid(r)
    ensures AllStartedBy(r, now)
  {
    var r := seq(|lanes|, i requires 0 <= i < |lanes| => StopLane(lanes[i], now));
    SameIdentities(lanes, r);
    r
  }

  /** `lapAll`: every lane that is running or has time on it records a lap. */
  function LapAll(s: RaceTimerState, now: int): (r: RaceTimerState)
    ensures r == s.(lanes := r.lanes)
    ensures |r.lanes| == |s.lanes| && forall i :: 0 <= i < |s.lanes| ==> r.lanes[i] == LapIfTimed(s.lanes[i], now)
    ensures Valid(s) ==> Valid(r)
    ensures AllStartedBy(s.lanes, now) ==> AllStartedBy(r.lanes, now)
    ensures Ids(r.lanes) == Ids(s.lanes)
  {
    var lanes := seq(|s.lanes|, i requires 0 <= i < |s.lanes| => LapIfTimed(s.lanes[i], now));
    SameIdentities(s.lanes, lanes);
    s.(lanes := lanes)
  }

  /** `lapLane`: only the lane with that id, if running or holding time, records a lap. */
  function LapLane(s: RaceTimerState, laneId: string, now: int): (r: RaceTimerState)
    ensures r == s.(lanes := r.lanes)
    ensures |r.lanes| == |s.lanes| && forall i :: 0 <= i < |s.lanes| ==>
      r.lanes[i] == if s.lanes[i].id == laneId then LapIfTimed(s.lanes[i], now) else s.lanes[i]
    ensures Valid(s) ==> Valid(r)
    ensures AllStartedBy(s.lanes, now) ==> AllStartedBy(r.lanes, now)
    ensures Ids(r.lanes) == Ids(s.lanes)
  {
    var lanes := seq(|s.lanes|, i requires 0 <= i < |s.lanes| =>
      if s.lanes[i].id == laneId then LapIfTimed(s.lanes[i], now) else s.lanes[i]);
    SameIdentities(s.lanes, lanes);
    s.(lanes := lanes)
  }

  /** `startLane`: only the lane with that id starts; an idle race becomes running. */
  function StartLaneById(s: RaceTimerState, laneId: string, now: int): (r: RaceTimerState)
    ensures r == s.(lanes := r.lanes, raceState := r.raceState)
    ensures |r.lanes| == |s.lanes| && forall i :: 0 <= i < |s.lanes| ==>
      r.lanes[i] == if s.lanes[i].id == laneId then StartLane(s.lanes[i], now) else s.lanes[i]
    ensures r.raceState == if s.raceState == Idle then Running else s.raceState
    ensures Valid(s) ==> Valid(r)
    ensures AllStartedBy(s.lanes, now) ==> AllStartedBy(r.lanes, now)
    ensures Ids(r.lanes) == Ids(s.lanes)
  {
    var lanes := StartMatching(s.lanes, laneId, now);
    s.(lanes := lanes, raceState := if s.raceState == Idle then Running else s.raceState)
  }

  /** The lanes with one id started, every other lane as it was. */
  function StartMatching(lanes: seq<Lane>, laneId: string, now: int): (r: seq<Lane>)
    ensures |r| == |lanes| && forall i :: 0 <= i < |lanes| ==>
      r[i] == if lanes[i].id == laneId then StartLane(lanes[i], now) else lanes[i]
    ensures Ids(r) == Ids(lanes) && (PositionsInOrder(lanes) ==> PositionsInOrder(r))
    ensures AllValid(lanes) ==> AllValid(r)
    ensures AllStartedBy(lanes, now) ==> AllStartedBy(r, now)
  {
    var r := seq(|lanes|, i requires 0 <= i < |lanes| =>
      if lanes[i].id == laneId then StartLane(lanes[i], now) else lanes[i]);
    SameIdentities(lanes, r);
    r
  }

  /** `stopLane`: only the lane with that id stops, banking its elapsed time. */
  function StopLaneById(s: RaceTimerState, laneId: string, now: int): (r: RaceTimerState)
    ensures r == s.(lanes := r.lanes)
    ensures |r.lanes| == |s.lanes| && forall i :: 0 <= i < |s.lanes| ==>
      r.lanes[i] == if s.lanes[i].id == laneId then StopLane(s.lanes[i], now) else s.lanes[i]
    ensures forall i :: 0 <= i < |r.lanes| ==> r.lanes[i].CurrentElapsedTime(now) == s.lanes[i].CurrentElapsedTime(now)
    ensures Valid(s) && AllStartedBy(s.lanes, now) ==> Valid(r)
    ensures AllStartedBy(s.lanes, now) ==> AllStartedBy(r.lanes, now)
    ensures Ids(r.lanes) == Ids(s.lanes)
  {
    s.(lanes := StopMatching(s.lanes, laneId, now))
  }

  /** The lanes with one id stopped, every other lane as it was. */
  function StopMatching(lanes: seq<Lane>, laneId: string, now: int): (r: seq<Lane>)
    ensures |r| == |lanes| && forall i :: 0 <= i < |lanes| ==>
      r[i] == if lanes[i].id == laneId then StopLane(lanes[i], now) else lanes[i]
    ensures forall i :: 0 <= i < |r| ==> r[i].CurrentElapsedTime(now) == lanes[i].CurrentElapsedTime(now)
    ensures Ids(r) == Ids(lanes) && (PositionsInOrder(lanes) ==> PositionsInOrder(r))
    ensures AllValid(lanes) && AllStartedBy(lanes, now) ==> AllValid(r)
    ensures AllStartedBy(lanes, now) ==> AllStartedBy(r, now)
  {
    var r := seq(|lanes|, i requires 0 <= i < |lanes| =>
      if lanes[i].id == laneId then StopLane(lanes[i], now) else lanes[i]);
    SameIdentities(lanes, r);
    r
  }

  /** `resetLane`: the lane with that id goes back to a fresh, stopped lane without laps. */
  function ResetLaneById(s: RaceTimerState, laneId: string): (r: RaceTimerState)
    ensures r == s.(lanes := r.lanes)
    ensures |r.lanes| == |s.lanes| && forall i :: 0 <= i < |s.lanes| ==>
      r.lanes[i] == if s.lanes[i].id == laneId then ResetLane(s.lanes[i]) else s.lanes[i]
    ensures Valid(s) ==> Valid(r)
    ensures forall now :: AllStartedBy(s.lanes, now) ==> AllStartedBy(r.lanes, now)
    ensures Ids(r.lanes) == Ids(s.lanes)
  {
    s.(lanes := ResetMatching(s.lanes, laneId))
  }

  /** The lanes with one id reset, every other lane as it was. */
  function ResetMatching(lanes: seq<Lane>, laneId: string): (r: seq<Lane>)
    ensures |r| == |lanes| && forall i :: 0 <= i < |lanes| ==>
      r[i] == if lanes[i].id == laneId then ResetLane(lanes[i]) else lanes[i]
    ensures Ids(r) == Ids(lanes) && (PositionsInOrder(lanes) ==> PositionsInOrder(r))
    ensures AllValid(lanes) ==> AllValid(r)
    ensures forall now :: AllStartedBy(lanes, now) ==> AllStartedBy(r, now)
  {
    var r := seq(|lanes|, i requires 0 <= i < |lanes| =>
      if lanes[i].id == laneId then ResetLane(lanes[i]) else lanes[i]);
    SameIdentities(lanes, r);
    r
  }

  /** `resetAllLanes`: every lane is fresh again, identities kept, and the race is idle. */
  function ResetAllLanes(s: RaceTimerState): (r: RaceTimerState)
    ensures r == s.(lanes := r.lanes, raceState := Idle)
    ensures |r.lanes| == |s.lanes| && forall i :: 0 <= i < |s.lanes| ==>
      r.lanes[i] == NewLane(s.lanes[i].id, s.lanes[i].name, s.lanes[i].position, s.lanes[i].color)
    ensures Valid(s) ==> Valid(r)
    ensures forall now :: AllStartedBy(r.lanes, now)
    ensures Ids(r.lanes) == Ids(s.lanes)
  {
    s.(lanes := ResetEach(s.lanes), raceState := Idle)
  }

  /** Every lane reset to a fresh stopped lane under the same identity. */
  function ResetEach(lanes: seq<Lane>): (r: seq<Lane>)
    ensures |r| == |lanes| && forall i :: 0 <= i < |lanes| ==>
      r[i] == NewLane(lanes[i].id, lanes[i].name, lanes[i].position, lanes[i].color)
    ensures Ids(r) == Ids(lanes) && (PositionsInOrder(lanes) ==> PositionsInOrder(r))
    ensures AllValid(r)
    ensures forall now :: AllStartedBy(r, now)
  {
    var r := seq(|lanes|, i requires 0 <= i < |lanes| => ResetLane(lanes[i]));
    SameIdentities(lanes, r);
    r
  }

  /**
   * `resetEverything`: back to the initial state, except that the theme,
   * the colour palette and the saved presets are kept.
   */
  function ResetEverything(s: RaceTimerState): (r: RaceTimerState)
    ensures r.theme == s.theme && r.colorPalette == s.colorPalette && r.presets == s.presets
    ensures r.lanes == [] && r.paceMarkers == [] && r.coachNotes == [] && r.customRestPresets == []
    ensures r.raceState == Idle && !r.isRestTimerRunning && r.countdownRemaining == 0 && r.restTimerRemaining == 0
    ensures r == InitialState().(theme := r.theme, colorPalette := r.colorPalette, presets := r.presets)
    ensures Valid(r)
  {
    InitialState().(theme := s.theme, colorPalette := s.colorPalette, presets := s.presets)
  }

  // ---------------------------------------------------------------------------
  // The countdown and the rest timer

  /**
   * What the countdown coroutine does next: write `next` seconds remaining
   * (then wait one second), or, once it has counted down, write 0 (then wait
   * 100 ms), or start every lane.
   */
  datatype CountdownJob = CountingDown(next: int) | Launching

  /** The synchronous part of `startCountdown`, before its coroutine runs. */
  function StartCountdown(s: RaceTimerState, seconds: int): (r: RaceTimerState)
    ensures r == s.(countdownSeconds := seconds, countdownRemaining := seconds, raceState := Countdown,
      showCountdownDialog := false)
    ensures Valid(s) ==> Valid(r)
  {
    s.(countdownSeconds := seconds, countdownRemaining := seconds, raceState := Countdown, showCountdownDialog := false)
  }

  /** One step of the countdown coroutine, between two of its delays. */
  function CountdownTick(s: RaceTimerState, job: CountdownJob, now: int): (r: (RaceTimerState, Option<CountdownJob>))
    ensures job.CountingDown? ==> r.0 == s.(countdownRemaining := if job.next >= 1 then job.next else 0)
    ensures job.CountingDown? && job.next >= 1 ==> r.1 == Some(CountingDown(job.next - 1))
    ensures job.CountingDown? && job.next < 1 ==> r.1 == Some(Launching)
    ensures job.Launching? ==> r == (StartAll(s, now), None)
    ensures Valid(s) ==> Valid(r.0)
  {
    match job
    case CountingDown(i) =>
      if i >= 1 then (s.(countdownRemaining := i), Some(CountingDown(i - 1)))
      else (s.(countdownRemaining := 0), Some(Launching))
    case Launching => (StartAll(s, now), None)
  }

  /** `k` undisturbed steps of the countdown coroutine, all at clock reading `now`. */
  function RunCountdown(s: RaceTimerState, job: Option<CountdownJob>, now: int, k: nat): (RaceTimerState, Option<CountdownJob>)
    decreases k
  {
    if k == 0 || job.None? then (s, job)
    else
      var next := CountdownTick(s, job.value, now);
      RunCountdown(next.0, next.1, now, k - 1)
  }

  /**
   * A countdown left to run finishes after one step per second plus two:
   * the remaining count is 0, every lane is running, the race is running, and
   * the coroutine is done.
   */
  lemma CountdownCompletes(s: RaceTimerState, seconds: int, now: int)
    ensures var s0 := StartCountdown(s, seconds);
      RunCountdown(s0, Some(CountingDown(seconds)), now, (if seconds > 0 then seconds else 0) + 2)
        == (StartAll(s0.(countdownRemaining := 0), now), None)
  {
    var s0 := StartCountdown(s, seconds);
    if seconds > 0 {
      CountdownFrom(s0, seconds, now, s0.(countdownRemaining := 0));
    } else {
      CountdownEnd(s0, seconds, now);
    }
  }

  lemma {:induction false} CountdownFrom(s: RaceTimerState, i: nat, now: int, fin: RaceTimerState)
    requires s.(countdownRemaining := 0) == fin
    ensures RunCountdown(s, Some(CountingDown(i)), now, i + 2) == (StartAll(fin, now), None)
    decreases i
  {
    if i == 0 {
      CountdownEnd(s, i, now);
    } else {
      var s' := s.(countdownRemaining := i);
      CountdownStep(s, i, now, i + 1);
      CountdownFrom(s', i - 1, now, fin);
    }
  }

  lemma CountdownStep(s: RaceTimerState, i: int, now: int, k: nat)
    requires i >= 1
    ensures RunCountdown(s, Some(CountingDown(i)), now, k + 1)
      == RunCountdown(s.(countdownRemaining := i), Some(CountingDown(i - 1)), now, k)
  {
    assert CountdownTick(s, CountingDown(i), now) == (s.(countdownRemaining := i), Some(CountingDown(i - 1)));
  }

  lemma CountdownEnd(s: RaceTimerState, i: int, now: int)
    requires i < 1
    ensures RunCountdown(s, Some(CountingDown(i)), now, 2) == (StartAll(s.(countdownRemaining := 0), now), None)
  {
    var s0 := s.(countdownRemaining := 0);
    assert CountdownTick(s, CountingDown(i), now) == (s0, Some(Launching));
    assert RunCountdown(s, Some(CountingDown(i)), now, 2) == RunCountdown(s0, Some(Launching), now, 1);
    assert CountdownTick(s0, Launching, now) == (StartAll(s0, now), None);
  }

  /** What the rest timer coroutine does next: write `next` seconds remaining, or finish. */
  datatype RestJob = RestCountingDown(next: int)

  /** The synchronous part of `startRestTimer`, before its coroutine runs. */
  function StartRestTimer(s: RaceTimerState, seconds: int): (r: RaceTimerState)
    ensures r == s.(restTimerSeconds := seconds, restTimerRemaining := seconds, isRestTimerRunning := true,
      showRestTimerDialog := false)
    ensures Valid(s) ==> Valid(r)
  {
    s.(restTimerSeconds := seconds, restTimerRemaining := seconds, isRestTimerRunning := true, showRestTimerDialog := false)
  }

  /** `stopRestTimer`: the rest timer stops and shows nothing remaining. */
  function StopRestTimer(s: RaceTimerState): (r: RaceTimerState)
    ensures r == s.(isRestTimerRunning := false, restTimerRemaining := 0)
    ensures Valid(s) ==> Valid(r)
  {
    s.(isRestTimerRunning := false, restTimerRemaining := 0)
  }

  /** One step of the rest timer coroutine. */
  function RestTick(s: RaceTimerState, job: RestJob): (r: (RaceTimerState, Option<RestJob>))
    ensures job.next >= 1 ==> r == (s.(restTimerRemaining := job.next), Some(RestCountingDown(job.next - 1)))
    ensures job.next < 1 ==> r == (StopRestTimer(s), None)
    ensures r.0.lanes == s.lanes && r.0.customRestPresets == s.customRestPresets
  {
    if job.next >= 1 then (s.(restTimerRemaining := job.next), Some(RestCountingDown(job.next - 1)))
    else (s.(restTimerRemaining := 0, isRestTimerRunning := false), None)
  }

  function RunRest(s: RaceTimerState, job: Option<RestJob>, k: nat): (RaceTimerState, Option<RestJob>)
    decreases k
  {
    if k == 0 || job.None? then (s, job)
    else
      var next := RestTick(s, job.value);
      RunRest(next.0, next.1, k - 1)
  }

  /**
   * A rest timer left to run finishes after one step per second plus one,
   * in the same state `stopRestTimer` would have left at its start.
   */
  lemma RestCompletes(s: RaceTimerState, seconds: int)
    ensures var s0 := StartRestTimer(s, seconds);
      RunRest(s0, Some(RestCountingDown(seconds)), (if seconds > 0 then seconds else 0) + 1) == (StopRestTimer(s0), None)
  {
    var s0 := StartRestTimer(s, seconds);
    if seconds > 0 {
      RestFrom(s0, seconds, StopRestTimer(s0));
    } else {
      assert RestTick(s0, RestCountingDown(seconds)) == (StopRestTimer(s0), None);
    }
  }

  lemma {:induction false} RestFrom(s: RaceTimerState, i: nat, fin: RaceTimerState)
    requires StopRestTimer(s) == fin
    ensures RunRest(s, Some(RestCountingDown(i)), i + 1) == (fin, None)
    decreases i
  {
    if i == 0 {
      assert RestTick(s, RestCountingDown(0)) == (fin, None);
    } else {
      var s' := s.(restTimerRemaining := i);
      assert RestTick(s, RestCountingDown(i)) == (s', Some(RestCountingDown(i - 1)));
      assert StopRestTimer(s') == fin;
      RestFrom(s', i - 1, fin);
    }
  }

  // ---------------------------------------------------------------------------
  // Custom rest presets

  /**
   * `(list + seconds).sorted()`, unless `seconds` is not positive or already
   * listed: the set of listed values gains `seconds` and the list stays
   * positive, sorted and without repeats.
   */
  function WithRestPreset(p: seq<int>, seconds: int): (r: seq<int>)
    ensures seconds <= 0 || seconds in p ==> r == p
    ensures forall x :: x in r <==> x in p || (x == seconds && seconds > 0)
    ensures RestPresetsValid(p) ==> RestPresetsValid(r)
  {
    if seconds <= 0 || seconds in p then p
    else
      var extended := p + [seconds];
      var sorted := Sorted(extended);
      assert forall x :: x in sorted <==> x in extended by {
        forall x ensures x in sorted <==> x in extended {
          assert x in sorted <==> x in multiset(sorted);
        }
      }
      if RestPresetsValid(p) then
        assert NoDuplicates(extended) by {
          forall i, j | 0 <= i < j < |extended| ensures extended[i] != extended[j] {
            if j < |p| { assert p[i] < p[j]; } else { assert extended[i] in p; }
          }
        }
        SortedDistinctIsStrict(extended);
        forall k | 0 <= k < |sorted| ensures sorted[k] > 0 {
          assert sorted[k] in extended;
        }
        sorted
      else
        sorted
  }

  /** `filter { it != seconds }` on the rest presets: that value leaves, the rest stay in order. */
  function WithoutRestPreset(p: seq<int>, seconds: int): (r: seq<int>)
    ensures forall x :: x in r <==> x in p && x != seconds
    ensures RestPresetsValid(p) ==> RestPresetsValid(r)
  {
    var kept := Filter((x: int) => x != seconds, p);
    if RestPresetsValid(p) then
      FilterKeepsStrict((x: int) => x != seconds, p);
      forall k | 0 <= k < |kept| ensures kept[k] > 0 {
        assert kept[k] in p;
      }
      kept
    else
      kept
  }

  /** `addCustomRestPreset`. */
  function AddCustomRestPreset(s: RaceTimerState, seconds: int): (r: RaceTimerState)
    ensures r == s.(customRestPresets := WithRestPreset(s.customRestPresets, seconds))
    ensures Valid(s) ==> Valid(r)
  {
    s.(customRestPresets := WithRestPreset(s.customRestPresets, seconds))
  }

  /** `removeCustomRestPreset`. */
  function RemoveCustomRestPreset(s: RaceTimerState, seconds: int): (r: RaceTimerState)
    ensures r == s.(customRestPresets := WithoutRestPreset(s.customRestPresets, seconds))
    ensures Valid(s) ==> Valid(r)
  {
    s.(customRestPresets := WithoutRestPreset(s.customRestPresets, seconds))
  }

  /** Adding a new preset and removing it again gives back a valid list. */
  lemma RestPresetAddRemove(p: seq<int>, seconds: int)
    requires RestPresetsValid(p) && seconds !in p
    ensures WithoutRestPreset(WithRestPreset(p, seconds), seconds) == p
  {
    var r := WithoutRestPreset(WithRestPreset(p, seconds), seconds);
    StrictSameElements(r, p);
  }

  /** Two strictly ascending lists with the same elements are equal. */
  lemma {:induction false} StrictSameElements(a: seq<int>, b: seq<int>)
    requires StrictlyAscending(a) && StrictlyAscending(b)
    requires forall x :: x in a <==> x in b
    ensures a == b
    decreases |a| + |b|
  {
    assert a != [] ==> a[0] in a;
    assert b != [] ==> b[0] in b;
    if a != [] && b != [] {
      assert a[0] == b[0] by {
        assert a[0] in b && b[0] in a;
        var i :| 0 <= i < |b| && b[i] == a[0];
        var j :| 0 <= j < |a| && a[j] == b[0];
        assert b[0] <= b[i] && a[0] <= a[j];
      }
      forall x ensures x in a[1..] <==> x in b[1..] {
        if x in a[1..] {
          var i :| 1 <= i < |a| && a[i] == x;
          assert x > a[0];
          assert x in b;
        }
        if x in b[1..] {
          var i :| 1 <= i < |b| && b[i] == x;
          assert x > b[0];
          assert x in a;
        }
      }
      StrictSameElements(a[1..], b[1..]);
      assert a == [a[0]] + a[1..] && b == [b[0]] + b[1..];
    }
  }

  // ---------------------------------------------------------------------------
  // Saved presets

  /**
   * `savePreset`: with at least one lane and a name that is not blank, a
   * preset with the trimmed name and the lanes' names and colours is
   * appended and the dialog closes; otherwise nothing happens.
   */
  function SavePreset(s: RaceTimerState, name: string, id: string, now: int): (r: RaceTimerState)
    ensures s.lanes == [] || IsBlank(name) ==> r == s
    ensures s.lanes != [] && !IsBlank(name) ==>
      && r == s.(presets := r.presets, showSavePresetDialog := false)
      && r.presets == s.presets + [TimerPreset(id, Trim(name), Names(s.lanes), Colors(s.lanes), now)]
      && Trim(name) != []
    ensures Valid(s) ==> Valid(r)
  {
    if s.lanes == [] || IsBlank(name) then s
    else
      BlankIffTrimEmpty(name);
      var preset := TimerPreset(id, Trim(name), Names(s.lanes), Colors(s.lanes), now);
      s.(presets := s.presets + [preset], showSavePresetDialog := false)
  }

  /** `presets.find { it.id == presetId }`: the first preset with that id. */
  function FindPreset(presets: seq<TimerPreset>, presetId: string): (r: Option<TimerPreset>)
    ensures r.None? <==> forall i :: 0 <= i < |presets| ==> presets[i].id != presetId
    ensures r.Some? ==> r.value.id == presetId
    ensures r.Some? ==>
      (exists k :: 0 <= k < |presets| && presets[k] == r.value && (forall j :: 0 <= j < k ==> presets[j].id != presetId))
  {
    if presets == [] then None
    else if presets[0].id == presetId then Some(presets[0])
    else
      var r := FindPreset(presets[1..], presetId);
      assert r.Some? ==>
        (exists k :: 0 <= k < |presets| && presets[k] == r.value && (forall j :: 0 <= j < k ==> presets[j].id != presetId)) by {
        if r.Some? {
          var k :| 0 <= k < |presets[1..]| && presets[1..][k] == r.value &&
            (forall j :: 0 <= j < k ==> presets[1..][j].id != presetId);
          assert presets[k + 1] == r.value;
          forall j | 0 <= j < k + 1 ensures presets[j].id != presetId {
            if j > 0 { assert presets[j] == presets[1..][j - 1]; }
          }
        }
      }
      assert r.None? ==> forall i :: 0 <= i < |presets| ==> presets[i].id != presetId by {
        if r.None? {
          forall i | 0 <= i < |presets| ensures presets[i].id != presetId {
            if i > 0 { assert presets[i] == presets[1..][i - 1]; }
          }
        }
      }
      r
  }

  /** `laneColors.getOrElse(index) { LaneColor.DEFAULT }`. */
  function ColorAt(colors: seq<LaneColor>, index: int): LaneColor {
    if 0 <= index < |colors| then colors[index] else Default
  }

  /**
   * The lanes `loadPreset` builds: one fresh lane per saved name, at
   * positions 1..N, in the saved colour (the default colour past the end
   * of the colour list), each with the id generated for it.
   */
  function PresetLanes(p: TimerPreset, ids: seq<string>): (r: seq<Lane>)
    requires |ids| == |p.laneNames|
    ensures |r| == |ids| && Ids(r) == ids && Names(r) == p.laneNames
    ensures forall i :: 0 <= i < |r| ==> r[i] == NewLane(ids[i], p.laneNames[i], i + 1, ColorAt(p.laneColors, i))
    ensures AllValid(r) && PositionsInOrder(r)
  {
    seq(|ids|, i requires 0 <= i < |ids| => NewLane(ids[i], p.laneNames[i], i + 1, ColorAt(p.laneColors, i)))
  }

  /** `loadPreset` once the preset is found: its lanes replace the current ones and the race is idle. */
  function LoadPreset(s: RaceTimerState, p: TimerPreset, ids: seq<string>): (r: RaceTimerState)
    requires |ids| == |p.laneNames|
    ensures r == s.(lanes := PresetLanes(p, ids), raceState := Idle, showLoadPresetDialog := false)
    ensures Valid(s) && NoDuplicates(ids) ==> Valid(r)
  {
    s.(lanes := PresetLanes(p, ids), raceState := Idle, showLoadPresetDialog := false)
  }

  /**
   * Saving a preset and loading it back gives the same lane names and
   * colours, in the same order, as fresh stopped lanes.
   */
  lemma SaveThenLoad(s: RaceTimerState, name: string, id: string, now: int, ids: seq<string>)
    requires s.lanes != [] && !IsBlank(name)
    requires forall i :: 0 <= i < |s.presets| ==> s.presets[i].id != id
    requires |ids| == |s.lanes|
    ensures var saved := SavePreset(s, name, id, now);
      && FindPreset(saved.presets, id).Some?
      && var loaded := LoadPreset(saved, FindPreset(saved.presets, id).value, ids).lanes;
      && Names(loaded) == Names(s.lanes)
      && Colors(loaded) == Colors(s.lanes)
      && forall i :: 0 <= i < |loaded| ==> !loaded[i].isRunning && loaded[i].laps == [] && loaded[i].pausedElapsedTime == 0
  {
    var saved := SavePreset(s, name, id, now);
    var p := TimerPreset(id, Trim(name), Names(s.lanes), Colors(s.lanes), now);
    assert saved.presets == s.presets + [p];
    var found := FindPreset(saved.presets, id);
    assert saved.presets[|s.presets|].id == id;
    assert found.Some?;
    var k :| 0 <= k < |saved.presets| && saved.presets[k] == found.value &&
      (forall j :: 0 <= j < k ==> saved.presets[j].id != id);
    assert k == |s.presets|;
    var loaded := PresetLanes(p, ids);
    assert Colors(loaded) == Colors(s.lanes);
  }

  /** `deletePreset`: presets with that id are gone, the others stay in their order. */
  function DeletePreset(s: RaceTimerState, presetId: string): (r: RaceTimerState)
    ensures r == s.(presets := r.presets)
    ensures forall i :: 0 <= i < |r.presets| ==> r.presets[i].id != presetId
    ensures r.presets == Filter((p: TimerPreset) => p.id != presetId, s.presets)
    ensures forall p :: p in s.presets && p.id != presetId ==> p in r.presets
    ensures forall i :: 0 <= i < |r.presets| ==> r.presets[i] in s.presets
    ensures Valid(s) ==> Valid(r)
  {
    s.(presets := Filter((p: TimerPreset) => p.id != presetId, s.presets))
  }

  // ---------------------------------------------------------------------------
  // Pace markers and coach notes

  /** `addPaceMarker`: a visible marker is appended and the dialog closes. */
  function AddPaceMarker(s: RaceTimerState, id: string, event: RaceEvent, interval: SplitInterval, targetTime: int): (r: RaceTimerState)
    ensures r == s.(paceMarkers := r.paceMarkers, showAddPaceDialog := false)
    ensures r.paceMarkers == s.paceMarkers + [PaceMarker(id, event, interval, targetTime, true)]
    ensures Valid(s) ==> Valid(r)
  {
    s.(paceMarkers := s.paceMarkers + [PaceMarker(id, event, interval, targetTime, true)], showAddPaceDialog := false)
  }

  /** `removePaceMarker`: markers with that id are gone, the others stay in their order. */
  function RemovePaceMarker(s: RaceTimerState, markerId: string): (r: RaceTimerState)
    ensures r == s.(paceMarkers := r.paceMarkers)
    ensures forall i :: 0 <= i < |r.paceMarkers| ==> r.paceMarkers[i].id != markerId
    ensures r.paceMarkers == Filter((m: PaceMarker) => m.id != markerId, s.paceMarkers)
    ensures forall m :: m in s.paceMarkers && m.id != markerId ==> m in r.paceMarkers
    ensures forall i :: 0 <= i < |r.paceMarkers| ==> r.paceMarkers[i] in s.paceMarkers
    ensures Valid(s) ==> Valid(r)
  {
    s.(paceMarkers := Filter((m: PaceMarker) => m.id != markerId, s.paceMarkers))
  }

  /** `togglePaceMarkerVisibility`: the markers with that id flip their visibility. */
  function TogglePaceMarker(s: RaceTimerState, markerId: string): (r: RaceTimerState)
    ensures r == s.(paceMarkers := r.paceMarkers)
    ensures |r.paceMarkers| == |s.paceMarkers| && forall i :: 0 <= i < |s.paceMarkers| ==>
      r.paceMarkers[i] == if s.paceMarkers[i].id == markerId then s.paceMarkers[i].(isVisible := !s.paceMarkers[i].isVisible)
        else s.paceMarkers[i]
    ensures Valid(s) ==> Valid(r)
  {
    s.(paceMarkers := seq(|s.paceMarkers|, i requires 0 <= i < |s.paceMarkers| =>
      var m := s.paceMarkers[i];
      if m.id == markerId then m.(isVisible := !m.isVisible) else m))
  }

  /** Toggling a marker twice restores the state. */
  lemma TogglePaceMarkerTwice(s: RaceTimerState, markerId: string)
    ensures TogglePaceMarker(TogglePaceMarker(s, markerId), markerId) == s
  {
    var r := TogglePaceMarker(TogglePaceMarker(s, markerId), markerId);
    assert r.paceMarkers == s.paceMarkers;
  }

  /** `addCoachNote`: text that is not blank becomes a visible note, trimmed; blank text does nothing. */
  function AddCoachNote(s: RaceTimerState, text: string, id: string): (r: RaceTimerState)
    ensures IsBlank(text) ==> r == s
    ensures !IsBlank(text) ==>
      && r == s.(coachNotes := s.coachNotes + [CoachNote(id, Trim(text), true)], showAddNoteDialog := false)
      && Trim(text) != []
    ensures Valid(s) ==> Valid(r)
  {
    if IsBlank(text) then s
    else
      BlankIffTrimEmpty(text);
      s.(coachNotes := s.coachNotes + [CoachNote(id, Trim(text), true)], showAddNoteDialog := false)
  }

  /** `removeCoachNote`: notes with that id are gone, the others stay in their order. */
  function RemoveCoachNote(s: RaceTimerState, noteId: string): (r: RaceTimerState)
    ensures r == s.(coachNotes := r.coachNotes)
    ensures forall i :: 0 <= i < |r.coachNotes| ==> r.coachNotes[i].id != noteId
    ensures r.coachNotes == Filter((n: CoachNote) => n.id != noteId, s.coachNotes)
    ensures forall n :: n in s.coachNotes && n.id != noteId ==> n in r.coachNotes
    ensures forall i :: 0 <= i < |r.coachNotes| ==> r.coachNotes[i] in s.coachNotes
    ensures Valid(s) ==> Valid(r)
  {
    s.(coachNotes := Filter((n: CoachNote) => n.id != noteId, s.coachNotes))
  }

  /** `updateCoachNote`: the notes with that id take the trimmed text (blank text included). */
  function UpdateCoachNote(s: RaceTimerState, noteId: string, text: string): (r: RaceTimerState)
    ensures r == s.(coachNotes := r.coachNotes)
    ensures |r.coachNotes| == |s.coachNotes| && forall i :: 0 <= i < |s.coachNotes| ==>
      r.coachNotes[i] == if s.coachNotes[i].id == noteId then s.coachNotes[i].(text := Trim(text)) else s.coachNotes[i]
    ensures Valid(s) ==> Valid(r)
  {
    s.(coachNotes := seq(|s.coachNotes|, i requires 0 <= i < |s.coachNotes| =>
      var n := s.coachNotes[i];
      if n.id == noteId then n.(text := Trim(text)) else n))
  }

  /** `toggleNoteVisibility`: the notes with that id flip their visibility. */
  function ToggleNote(s: RaceTimerState, noteId: string): (r: RaceTimerState)
    ensures r == s.(coachNotes := r.coachNotes)
    ensures |r.coachNotes| == |s.coachNotes| && forall i :: 0 <= i < |s.coachNotes| ==>
      r.coachNotes[i] == if s.coachNotes[i].id == noteId then s.coachNotes[i].(isVisible := !s.coachNotes[i].isVisible)
        else s.coachNotes[i]
    ensures Valid(s) ==> Valid(r)
  {
    s.(coachNotes := seq(|s.coachNotes|, i requires 0 <= i < |s.coachNotes| =>
      var n := s.coachNotes[i];
      if n.id == noteId then n.(isVisible := !n.isVisible) else n))
  }

  /** Toggling a note twice restores the state. */
  lemma ToggleNoteTwice(s: RaceTimerState, noteId: string)
    ensures ToggleNote(ToggleNote(s, noteId), noteId) == s
  {
    var r := ToggleNote(ToggleNote(s, noteId), noteId);
    assert r.coachNotes == s.coachNotes;
  }

  // ---------------------------------------------------------------------------
  // Dialogs

  /** Whether the dialog `d` is showing. */
  predicate DialogOpen(s: RaceTimerState, d: DialogType) {
    match d
    case ThemeSelector => s.showThemeSelector
    case CountdownDialog => s.showCountdownDialog
    case RestTimerDialog => s.showRestTimerDialog
    case SavePresetDialog => s.showSavePresetDialog
    case LoadPresetDialog => s.showLoadPresetDialog
    case ShareDialog => s.showShareDialog
    case AddPaceDialog => s.showAddPaceDialog
    case AddNoteDialog => s.showAddNoteDialog
    case ManageMarkersDialog => s.showManageMarkersDialog
  }

  /** The state with every dialog, the menu and the rename dialog closed. */
  function AllClosed(s: RaceTimerState): RaceTimerState {
    s.(showThemeSelector := false, showMenuDropdown := false, showCountdownDialog := false,
      showRestTimerDialog := false, showSavePresetDialog := false, showLoadPresetDialog := false,
      showShareDialog := false, showRenameLaneDialog := None, showAddPaceDialog := false,
      showAddNoteDialog := false, showManageMarkersDialog := false)
  }

  /** `showDialog`: that dialog opens, the menu closes, nothing else changes. */
  function ShowDialog(s: RaceTimerState, d: DialogType): (r: RaceTimerState)
    ensures DialogOpen(r, d) && !r.showMenuDropdown
    ensures r.showRenameLaneDialog == s.showRenameLaneDialog && AllClosed(r) == AllClosed(s)
  {
    match d
    case ThemeSelector => s.(showThemeSelector := true, showMenuDropdown := false)
    case CountdownDialog => s.(showCountdownDialog := true, showMenuDropdown := false)
    case RestTimerDialog => s.(showRestTimerDialog := true, showMenuDropdown := false)
    case SavePresetDialog => s.(showSavePresetDialog := true, showMenuDropdown := false)
    case LoadPresetDialog => s.(showLoadPresetDialog := true, showMenuDropdown := false)
    case ShareDialog => s.(showShareDialog := true, showMenuDropdown := false)
    case AddPaceDialog => s.(showAddPaceDialog := true, showMenuDropdown := false)
    case AddNoteDialog => s.(showAddNoteDialog := true, showMenuDropdown := false)
    case ManageMarkersDialog => s.(showManageMarkersDialog := true, showMenuDropdown := false)
  }

  /** Opening one dialog leaves every other dialog as it was. */
  lemma ShowDialogLeavesOthers(s: RaceTimerState, d: DialogType, e: DialogType)
    requires e != d
    ensures DialogOpen(ShowDialog(s, d), e) == DialogOpen(s, e)
  {
    match e
    case ThemeSelector =>
    case CountdownDialog =>
    case RestTimerDialog =>
    case SavePresetDialog =>
    case LoadPresetDialog =>
    case ShareDialog =>
    case AddPaceDialog =>
    case AddNoteDialog =>
    case ManageMarkersDialog =>
  }

  /** `dismissDialog`: no dialog, no menu, no rename dialog; nothing else changes. */
  function DismissDialog(s: RaceTimerState): (r: RaceTimerState)
    ensures forall d :: !DialogOpen(r, d)
    ensures !r.showMenuDropdown && r.showRenameLaneDialog.None?
    ensures AllClosed(r) == AllClosed(s)
  {
    AllClosed(s)
  }

  /** Opening a dialog and dismissing it leaves the state as dismissing alone would; the invariant is untouched. */
  lemma ShowThenDismiss(s: RaceTimerState, d: DialogType)
    ensures DismissDialog(ShowDialog(s, d)) == DismissDialog(s)
    ensures Valid(s) ==> Valid(ShowDialog(s, d)) && Valid(DismissDialog(s))
  {
  }
}
