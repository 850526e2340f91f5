/**
 * `RaceTimerViewModel`: the object that owns the current `RaceTimerState`,
 * the shared id generator and the countdown and rest-timer coroutines.
 * Each event handler replaces `state` with the corresponding `Engine`
 * update; the clock reading an event takes is the parameter `now`.
 */
module ViewModel {
  import opened Wrappers
  import opened Seqs
  import opened Models
  import opened Lanes
  import opened Text
  import opened IdGen
  import Engine

  /** `RaceTimerEvent`: what the screen can ask the view model to do. */
  datatype RaceTimerEvent =
    | AddLane
    | RemoveLane(laneId: string)
    | RenameLane(laneId: string, newName: string)
    | ReorderLanes(fromIndex: int, toIndex: int)
    | StartAll
    | StopAll
    | LapAll
    | LapLane(laneId: string)
    | StartLane(laneId: string)
    | StopLane(laneId: string)
    | ResetLane(laneId: string)
    | ResetAllLanes
    | ResetEverything
    | StartCountdown(seconds: int)
    | StartRestTimer(seconds: int)
    | StopRestTimer
    | AddCustomRestPreset(seconds: int)
    | RemoveCustomRestPreset(seconds: int)
    | SavePreset(name: string)
    | LoadPreset(presetId: string)
    | DeletePreset(presetId: string)
    | AddPaceMarker(event: RaceEvent, splitInterval: SplitInterval, targetTime: int)
    | RemovePaceMarker(markerId: string)
    | TogglePaceMarkerVisibility(markerId: string)
    | AddCoachNote(text: string)
    | RemoveCoachNote(noteId: string)
    | UpdateCoachNote(noteId: string, text: string)
    | ToggleNoteVisibility(noteId: string)
    | SetTheme(theme: AppTheme)
    | SetColorPalette(palette: string)
    | ExpandLane(expandId: Option<string>)
    | ShowDialog(dialog: Engine.DialogType)
    | ShowRenameLaneDialog(renameId: string)
    | DismissDialog
    | ToggleMenuDropdown
    | ToggleShowLaps

  /** The ids `loadPreset` generates for `n` lanes, starting from a generator at `counter`. */
  function LaneIds(now: int, counter: int, n: nat): (r: seq<string>)
    ensures |r| == n && forall j :: 0 <= j < n ==> r[j] == IdText(LaneId, now, counter + j + 1)
  {
    seq(n, j requires 0 <= j < n => IdText(LaneId, now, counter + j + 1))
  }

  /** The ids generated for a preset's lanes differ from each other. */
  lemma LaneIdsDistinct(now: int, counter: int, n: nat)
    requires counter >= 0
    ensures NoDuplicates(LaneIds(now, counter, n))
  {
    var r := LaneIds(now, counter, n);
    forall i, j | 0 <= i < j < n ensures r[i] != r[j] {
      IdsDistinct(LaneId, now, counter + i + 1, LaneId, now, counter + j + 1);
    }
  }

  /** The ids generated for a preset's lanes are issued by the generator's new counter value. */
  lemma LaneIdsIssued(now: int, counter: int, n: nat)
    requires counter >= 0
    ensures forall id :: id in LaneIds(now, counter, n) ==> IssuedUpTo(id, counter + n)
  {
    var r := LaneIds(now, counter, n);
    forall j | 0 <= j < n ensures IssuedUpTo(r[j], counter + n) {
      IdIssuedBy(LaneId, now, counter + j + 1, counter + n);
    }
  }

  /**
   * The view model's invariant on its state, its generator's counter and the
   * latest clock reading: the state invariant holds, running lanes started
   * no later than the clock, and every lane id is one the generator has
   * already issued (so a newly generated id is never a current lane's).
   */
  predicate Inv(s: Engine.RaceTimerState, counter: int, clock: int) {
    && Engine.Valid(s)
    && AllStartedBy(s.lanes, clock)
    && counter >= 0
    && forall id :: id in Ids(s.lanes) ==> IssuedUpTo(id, counter)
  }

  /** An update that leaves the lanes and the rest presets alone keeps the invariant. */
  lemma InvOtherFields(s: Engine.RaceTimerState, r: Engine.RaceTimerState, counter: int, clock: int)
    requires Inv(s, counter, clock) && r.lanes == s.lanes && r.customRestPresets == s.customRestPresets
    ensures Inv(r, counter, clock)
  {
  }

  /** An update that keeps the lane ids, the start-by property and the state invariant keeps the view model's. */
  lemma InvSameIds(s: Engine.RaceTimerState, r: Engine.RaceTimerState, counter: int, clock: int)
    requires Inv(s, counter, clock) && Engine.Valid(r) && AllStartedBy(r.lanes, clock)
    requires forall id :: id in Ids(r.lanes) ==> id in Ids(s.lanes)
    ensures Inv(r, counter, clock)
  {
  }

  /** An update that changes the rest presets into a valid list, and leaves the lanes alone, keeps the invariant. */
  lemma InvRestPresets(s: Engine.RaceTimerState, r: Engine.RaceTimerState, counter: int, clock: int)
    requires Inv(s, counter, clock) && r.lanes == s.lanes && Engine.RestPresetsValid(r.customRestPresets)
    ensures Inv(r, counter, clock)
  {
  }

  /** The invariant survives the generator issuing more ids. */
  lemma InvMoreIssued(s: Engine.RaceTimerState, counter: int, counter': int, clock: int)
    requires Inv(s, counter, clock) && counter <= counter'
    ensures Inv(s, counter', clock)
  {
  }

  /** Adding a lane under an id the generator has just issued keeps the invariant. */
  lemma AddLaneInv(s: Engine.RaceTimerState, now: int, counter: int, clock: int)
    requires Inv(s, counter, clock)
    ensures Inv(Engine.AddLane(s, IdText(LaneId, now, counter + 1)), counter + 1, clock)
  {
    var id := IdText(LaneId, now, counter + 1);
    NextIdIsNew(LaneId, now, counter);
    assert id !in Ids(s.lanes);
    var r := Engine.AddLane(s, id);
    assert r.lanes == s.lanes + [r.lanes[|s.lanes|]] by {
      assert r.lanes[..|s.lanes|] == s.lanes;
    }
    AppendedIdsIssued(s.lanes, r.lanes[|s.lanes|], counter);
    AppendedStartedBy(s.lanes, r.lanes[|s.lanes|], clock);
  }

  /** Appending a lane whose id the generator has just issued keeps every id issued. */
  lemma AppendedIdsIssued(lanes: seq<Lane>, lane: Lane, counter: int)
    requires forall id :: id in Ids(lanes) ==> IssuedUpTo(id, counter)
    requires IssuedUpTo(lane.id, counter + 1)
    ensures forall id :: id in Ids(lanes + [lane]) ==> IssuedUpTo(id, counter + 1)
  {
    assert Ids(lanes + [lane]) == Ids(lanes) + [lane.id];
  }

  /** Appending a stopped lane keeps every running lane started by `clock`. */
  lemma AppendedStartedBy(lanes: seq<Lane>, lane: Lane, clock: int)
    requires AllStartedBy(lanes, clock) && !lane.isRunning
    ensures AllStartedBy(lanes + [lane], clock)
  {
    forall i | 0 <= i < |lanes| + 1 ensures StartedBy((lanes + [lane])[i], clock) {
      if i < |lanes| { assert (lanes + [lane])[i] == lanes[i]; }
    }
  }

  /** Replacing the lanes by a preset's, under ids freshly generated one per lane, keeps the invariant. */
  lemma LoadPresetInv(s: Engine.RaceTimerState, p: TimerPreset, now: int, counter: int, clock: int)
    requires Inv(s, counter, clock)
    ensures Inv(Engine.LoadPreset(s, p, LaneIds(now, counter, |p.laneNames|)), counter + |p.laneNames|, clock)
  {
    LaneIdsDistinct(now, counter, |p.laneNames|);
    LaneIdsIssued(now, counter, |p.laneNames|);
    var r := Engine.LoadPreset(s, p, LaneIds(now, counter, |p.laneNames|));
    assert AllStartedBy(r.lanes, clock);
  }

  /** A later clock reading keeps the invariant: a lane started by the old clock is started by the new one. */
  lemma InvLater(s: Engine.RaceTimerState, counter: int, clock: int, now: int)
    requires Inv(s, counter, clock) && clock <= now
    ensures Inv(s, counter, now)
  {
  }

  /** Everything an event may change: the state, the id generator's counter and the two coroutines. */
  datatype Snapshot = Snapshot(
    state: Engine.RaceTimerState, counter: int,
    countdownJob: Option<Engine.CountdownJob>, restJob: Option<Engine.RestJob>)

  /**
   * What `onEvent` does with each event at clock reading `now`: the handler
   * it routes to, as the `Engine` update that handler applies, the ids it
   * draws from the generator and the coroutines it launches or cancels.
   */
  /**
   * What `onEvent` does with each event at clock reading `now`: the handler
   * it routes to, as the `Engine` update that handler applies, the ids it
   * draws from the generator and the coroutines it launches or cancels.
   */
  function Transition(m: Snapshot, e: RaceTimerEvent, now: int): Snapshot
    requires e.ReorderLanes? ==>
      e.fromIndex == e.toIndex || (0 <= e.fromIndex < |m.state.lanes| && 0 <= e.toIndex < |m.state.lanes|)
  {
    if LaneEvent(e) then LaneTransition(m, e, now) else OtherTransition(m, e, now)
  }

  /** `Transition` on the events that are not lane or timing events. */
  function OtherTransition(m: Snapshot, e: RaceTimerEvent, now: int): Snapshot
    requires !LaneEvent(e)
  {
    if TimerEvent(e) then TimerTransition(m, e, now)
    else if NoteEvent(e) then MarkerOrNoteTransition(m, e, now)
    else DisplayTransition(m, e, now)
  }

  /** `Transition` on the pace-marker and coach-note events. */
  function MarkerOrNoteTransition(m: Snapshot, e: RaceTimerEvent, now: int): Snapshot
    requires NoteEvent(e)
  {
    if e.AddPaceMarker? || e.RemovePaceMarker? || e.TogglePaceMarkerVisibility? then MarkerTransition(m, e, now)
    else NoteTransition(m, e, now)
  }

  /** `Transition` on the lane and timing events. */
  function LaneTransition(m: Snapshot, e: RaceTimerEvent, now: int): Snapshot
    requires LaneEvent(e)
    requires e.ReorderLanes? ==>
      e.fromIndex == e.toIndex || (0 <= e.fromIndex < |m.state.lanes| && 0 <= e.toIndex < |m.state.lanes|)
  {
    var s := m.state;
    match e
    case AddLane => m.(state := Engine.AddLane(s, IdText(LaneId, now, m.counter + 1)), counter := m.counter + 1)
    case RemoveLane(laneId) => m.(state := Engine.RemoveLane(s, laneId))
    case RenameLane(laneId, newName) => m.(state := Engine.RenameLane(s, laneId, newName))
    case ReorderLanes(fromIndex, toIndex) => m.(state := Engine.ReorderLanes(s, fromIndex, toIndex))
    case StartAll => m.(state := Engine.StartAll(s, now))
    case StopAll => m.(state := Engine.StopAll(s, now))
    case LapAll => m.(state := Engine.LapAll(s, now))
    case LapLane(laneId) => m.(state := Engine.LapLane(s, laneId, now))
    case StartLane(laneId) => m.(state := Engine.StartLaneById(s, laneId, now))
    case StopLane(laneId) => m.(state := Engine.StopLaneById(s, laneId, now))
    case ResetLane(laneId) => m.(state := Engine.ResetLaneById(s, laneId))
    case ResetAllLanes => m.(state := Engine.ResetAllLanes(s))
    case ResetEverything => m.(state := Engine.ResetEverything(s), countdownJob := None, restJob := None)
  }

  /** `Transition` on the countdown, rest-timer and preset events. */
  function TimerTransition(m: Snapshot, e: RaceTimerEvent, now: int): Snapshot
    requires TimerEvent(e)
  {
    var s := m.state;
    match e
    case StartCountdown(seconds) =>
      m.(state := Engine.StartCountdown(s, seconds), countdownJob := Some(Engine.CountingDown(seconds)))
    case StartRestTimer(seconds) =>
      m.(state := Engine.StartRestTimer(s, seconds), restJob := Some(Engine.RestCountingDown(seconds)))
    case StopRestTimer => m.(state := Engine.StopRestTimer(s), restJob := None)
    case AddCustomRestPreset(seconds) => m.(state := Engine.AddCustomRestPreset(s, seconds))
    case RemoveCustomRestPreset(seconds) => m.(state := Engine.RemoveCustomRestPreset(s, seconds))
    case SavePreset(name) =>
      if s.lanes == [] || IsBlank(name) then m
      else m.(state := Engine.SavePreset(s, name, IdText(PresetId, now, m.counter + 1), now), counter := m.counter + 1)
    case LoadPreset(presetId) =>
      (match Engine.FindPreset(s.presets, presetId)
       case None => m
       case Some(p) =>
         m.(state := Engine.LoadPreset(s, p, LaneIds(now, m.counter, |p.laneNames|)), counter := m.counter + |p.laneNames|))
    case DeletePreset(presetId) => m.(state := Engine.DeletePreset(s, presetId))
  }

  /** `Transition` on the pace-marker events. */
  function MarkerTransition(m: Snapshot, e: RaceTimerEvent, now: int): Snapshot
    requires e.AddPaceMarker? || e.RemovePaceMarker? || e.TogglePaceMarkerVisibility?
  {
    var s := m.state;
    match e
    case AddPaceMarker(event, splitInterval, targetTime) =>
      m.(state := Engine.AddPaceMarker(s, IdText(PaceId, now, m.counter + 1), event, splitInterval, targetTime),
         counter := m.counter + 1)
    case RemovePaceMarker(markerId) => m.(state := Engine.RemovePaceMarker(s, markerId))
    case TogglePaceMarkerVisibility(markerId) => m.(state := Engine.TogglePaceMarker(s, markerId))
  }

  /** `Transition` on the coach-note events. */
  function NoteTransition(m: Snapshot, e: RaceTimerEvent, now: int): Snapshot
    requires e.AddCoachNote? || e.RemoveCoachNote? || e.UpdateCoachNote? || e.ToggleNoteVisibility?
  {
    var s := m.state;
    match e
    case AddCoachNote(text) =>
      if IsBlank(text) then m
      else m.(state := Engine.AddCoachNote(s, text, IdText(NoteId, now, m.counter + 1)), counter := m.counter + 1)
    case RemoveCoachNote(noteId) => m.(state := Engine.RemoveCoachNote(s, noteId))
    case UpdateCoachNote(noteId, text) => m.(state := Engine.UpdateCoachNote(s, noteId, text))
    case ToggleNoteVisibility(noteId) => m.(state := Engine.ToggleNote(s, noteId))
  }

  /** `Transition` on the settings, lane-expansion and dialog events. */
  function DisplayTransition(m: Snapshot, e: RaceTimerEvent, now: int): Snapshot
    requires !LaneEvent(e) && !TimerEvent(e) && !NoteEvent(e)
  {
    var s := m.state;
    match e
    case SetTheme(theme) => m.(state := s.(theme := theme, showThemeSelector := false))
    case SetColorPalette(palette) => m.(state := s.(colorPalette := palette))
    case ExpandLane(laneId) => m.(state := s.(expandedLaneId := laneId))
    case ShowDialog(dialog) => m.(state := Engine.ShowDialog(s, dialog))
    case ShowRenameLaneDialog(laneId) => m.(state := s.(showRenameLaneDialog := Some(laneId)))
    case DismissDialog => m.(state := Engine.DismissDialog(s))
    case ToggleMenuDropdown => m.(state := s.(showMenuDropdown := !s.showMenuDropdown))
    case ToggleShowLaps => m.(state := s.(showLapsInCards := !s.showLapsInCards))
  }

  class RaceTimerViewModel {
    var state: Engine.RaceTimerState
    /** The process-wide `IdGenerator` object; other code may share it. */
    const ids: IdGenerator
    var countdownJob: Option<Engine.CountdownJob>
    var restJob: Option<Engine.RestJob>
    /** The latest clock reading any event has used. */
    ghost var clock: int

    ghost predicate Valid()
      reads this, ids
    {
      Inv(state, ids.counter, clock)
    }

    /** The view model's current snapshot. */
    function Snap(): Snapshot
      reads this, ids
    {
      Snapshot(state, ids.counter, countdownJob, restJob)
    }

    constructor (gen: IdGenerator, now: int)
      requires gen.counter >= 0
      ensures Valid() && ids == gen && clock == now
      ensures state == Engine.InitialState() && countdownJob.None? && restJob.None?
    {
      state := Engine.InitialState();
      ids := gen;
      countdownJob := None;
      restJob := None;
      clock := now;
    }

    // -------------------------------------------------------------------------
    // Lanes

    method AddLane(now: int)
      requires Valid() && clock <= now
      modifies this, ids
      ensures Valid() && clock == now
      ensures ids.counter == old(ids.counter) + 1
      ensures state == Engine.AddLane(old(state), IdText(LaneId, now, ids.counter))
      ensures countdownJob == old(countdownJob) && restJob == old(restJob)
    {
      ghost var counter := ids.counter;
      ghost var next := Engine.AddLane(state, IdText(LaneId, now, counter + 1));
      InvLater(state, counter, clock, now);
      AddLaneInv(state, now, counter, now);
      assert Inv(next, counter + 1, now);
      var id := ids.Generate(LaneId, now);
      state, clock := Engine.AddLane(state, id), now;
      assert state == next;
    }

    method RemoveLane(laneId: string)
      requires Valid()
      modifies this
      ensures Valid() && clock == old(clock)
      ensures state == Engine.RemoveLane(old(state), laneId)
      ensures countdownJob == old(countdownJob) && restJob == old(restJob)
    {
      state := Engine.RemoveLane(state, laneId);
      InvSameIds(old(state), state, ids.counter, clock);
    }

    method RenameLane(laneId: string, newName: string)
      requires Valid()
      modifies this
      ensures Valid() && clock == old(clock)
      ensures state == Engine.RenameLane(old(state), laneId, newName)
      ensures countdownJob == old(countdownJob) && restJob == old(restJob)
    {
      state := Engine.RenameLane(state, laneId, newName);
      InvSameIds(old(state), state, ids.counter, clock);
    }

    /** Kotlin's `removeAt`/`add` throw for an index outside the list, hence the precondition. */
    method ReorderLanes(fromIndex: int, toIndex: int)
      requires Valid()
      requires fromIndex == toIndex || (0 <= fromIndex < |state.lanes| && 0 <= toIndex < |state.lanes|)
      modifies this
      ensures Valid() && clock == old(clock)
      ensures state == Engine.ReorderLanes(old(state), fromIndex, toIndex)
      ensures countdownJob == old(countdownJob) && restJob == old(restJob)
    {
      if fromIndex == toIndex {
        return;
      }
      state := Engine.ReorderLanes(state, fromIndex, toIndex);
      InvSameIds(old(state), state, ids.counter, clock);
    }

    // -------------------------------------------------------------------------
    // Timing

    method StartAll(now: int)
      requires Valid() && clock <= now
      modifies this
      ensures Valid() && clock == now
      ensures state == Engine.StartAll(old(state), now)
      ensures countdownJob == old(countdownJob) && restJob == old(restJob)
    {
      InvLater(state, ids.counter, clock, now);
      state := Engine.StartAll(state, now);
      clock := now;
      InvSameIds(old(state), state, ids.counter, clock);
    }

    method StopAll(now: int)
      requires Valid() && clock <= now
      modifies this
      ensures Valid() && clock == now
      ensures state == Engine.StopAll(old(state), now)
      ensures countdownJob == old(countdownJob) && restJob == old(restJob)
    {
      InvLater(state, ids.counter, clock, now);
      state := Engine.StopAll(state, now);
      clock := now;
      InvSameIds(old(state), state, ids.counter, clock);
    }

    method LapAll(now: int)
      requires Valid() && clock <= now
      modifies this
      ensures Valid() && clock == now
      ensures state == Engine.LapAll(old(state), now)
      ensures countdownJob == old(countdownJob) && restJob == old(restJob)
    {
      InvLater(state, ids.counter, clock, now);
      state := Engine.LapAll(state, now);
      clock := now;
      InvSameIds(old(state), state, ids.counter, clock);
    }

    method LapLane(laneId: string, now: int)
      requires Valid() && clock <= now
      modifies this
      ensures Valid() && clock == now
      ensures state == Engine.LapLane(old(state), laneId, now)
      ensures countdownJob == old(countdownJob) && restJob == old(restJob)
    {
      InvLater(state, ids.counter, clock, now);
      state := Engine.LapLane(state, laneId, now);
      clock := now;
      InvSameIds(old(state), state, ids.counter, clock);
    }

    method StartLane(laneId: string, now: int)
      requires Valid() && clock <= now
      modifies this
      ensures Valid() && clock == now
      ensures state == Engine.StartLaneById(old(state), laneId, now)
      ensures countdownJob == old(countdownJob) && restJob == old(restJob)
    {
      InvLater(state, ids.counter, clock, now);
      state := Engine.StartLaneById(state, laneId, now);
      clock := now;
      InvSameIds(old(state), state, ids.counter, clock);
    }

    method StopLane(laneId: string, now: int)
      requires Valid() && clock <= now
      modifies this
      ensures Valid() && clock == now
      ensures state == Engine.StopLaneById(old(state), laneId, now)
      ensures countdownJob == old(countdownJob) && restJob == old(restJob)
    {
      InvLater(state, ids.counter, clock, now);
      state := Engine.StopLaneById(state, laneId, now);
      clock := now;
      InvSameIds(old(state), state, ids.counter, clock);
    }

    method ResetLane(laneId: string)
      requires Valid()
      modifies this
      ensures Valid() && clock == old(clock)
      ensures state == Engine.ResetLaneById(old(state), laneId)
      ensures countdownJob == old(countdownJob) && restJob == old(restJob)
    {
      state := Engine.ResetLaneById(state, laneId);
      InvSameIds(old(state), state, ids.counter, clock);
    }

    method ResetAllLanes()
      requires Valid()
      modifies this
      ensures Valid() && clock == old(clock)
      ensures state == Engine.ResetAllLanes(old(state))
      ensures countdownJob == old(countdownJob) && restJob == old(restJob)
    {
      state := Engine.ResetAllLanes(state);
      InvSameIds(old(state), state, ids.counter, clock);
    }

    /** `resetEverything`: both coroutines are cancelled and the state starts over. */
    method ResetEverything()
      requires Valid()
      modifies this
      ensures Valid() && clock == old(clock)
      ensures state == Engine.ResetEverything(old(state))
      ensures countdownJob.None? && restJob.None?
    {
      countdownJob := None;
      restJob := None;
      state := Engine.ResetEverything(state);
      InvSameIds(old(state), state, ids.counter, clock);
    }

    // -------------------------------------------------------------------------
    // The countdown and the rest timer

    /** `startCountdown`: any running countdown is cancelled and a new one launched. */
    method StartCountdown(seconds: int)
      requires Valid()
      modifies this
      ensures Valid() && clock == old(clock)
      ensures state == Engine.StartCountdown(old(state), seconds)
      ensures countdownJob == Some(Engine.CountingDown(seconds)) && restJob == old(restJob)
    {
      countdownJob := Some(Engine.CountingDown(seconds));
      state := Engine.StartCountdown(state, seconds);
      InvOtherFields(old(state), state, ids.counter, clock);
    }

    /** The countdown coroutine runs until its next delay; the last step starts every lane at `now`. */
    method CountdownStep(now: int)
      requires Valid() && clock <= now && countdownJob.Some?
      modifies this
      ensures Valid() && clock == now
      ensures (state, countdownJob) == Engine.CountdownTick(old(state), old(countdownJob).value, now)
      ensures restJob == old(restJob)
    {
      InvLater(state, ids.counter, clock, now);
      var next := Engine.CountdownTick(state, countdownJob.value, now);
      if countdownJob.value.Launching? {
        InvSameIds(state, next.0, ids.counter, now);
      } else {
        InvOtherFields(state, next.0, ids.counter, now);
      }
      state, countdownJob := next.0, next.1;
      clock := now;
    }

    /** `startRestTimer`: any running rest timer is cancelled and a new one launched. */
    method StartRestTimer(seconds: int)
      requires Valid()
      modifies this
      ensures Valid() && clock == old(clock)
      ensures state == Engine.StartRestTimer(old(state), seconds)
      ensures restJob == Some(Engine.RestCountingDown(seconds)) && countdownJob == old(countdownJob)
    {
      restJob := Some(Engine.RestCountingDown(seconds));
      state := Engine.StartRestTimer(state, seconds);
      InvOtherFields(old(state), state, ids.counter, clock);
    }

    /** The rest timer coroutine runs until its next delay. */
    method RestStep()
      requires Valid() && restJob.Some?
      modifies this
      ensures Valid() && clock == old(clock)
      ensures (state, restJob) == Engine.RestTick(old(state), old(restJob).value)
      ensures countdownJob == old(countdownJob)
    {
      var next := Engine.RestTick(state, restJob.value);
      InvOtherFields(state, next.0, ids.counter, clock);
      state, restJob := next.0, next.1;
    }

    /** `stopRestTimer`: the rest timer coroutine is cancelled. */
    method StopRestTimer()
      requires Valid()
      modifies this
      ensures Valid() && clock == old(clock)
      ensures state == Engine.StopRestTimer(old(state))
      ensures restJob.None? && countdownJob == old(countdownJob)
    {
      restJob := None;
      state := Engine.StopRestTimer(state);
      InvOtherFields(old(state), state, ids.counter, clock);
    }

    method AddCustomRestPreset(seconds: int)
      requires Valid()
      modifies this
      ensures Valid() && clock == old(clock)
      ensures state == Engine.AddCustomRestPreset(old(state), seconds)
      ensures countdownJob == old(countdownJob) && restJob == old(restJob)
    {
      state := Engine.AddCustomRestPreset(state, seconds);
      InvRestPresets(old(state), state, ids.counter, clock);
    }

    method RemoveCustomRestPreset(seconds: int)
      requires Valid()
      modifies this
      ensures Valid() && clock == old(clock)
      ensures state == Engine.RemoveCustomRestPreset(old(state), seconds)
      ensures countdownJob == old(countdownJob) && restJob == old(restJob)
    {
      state := Engine.RemoveCustomRestPreset(state, seconds);
      InvRestPresets(old(state), state, ids.counter, clock);
    }

    // -------------------------------------------------------------------------
    // Saved presets

    /** `savePreset`: an id is generated only once the preset will be saved. */
    method SavePreset(name: string, now: int)
      requires Valid() && clock <= now
      modifies this, ids
      ensures Valid() && clock == now
      ensures old(state.lanes) == [] || IsBlank(name) ==> state == old(state) && ids.counter == old(ids.counter)
      ensures old(state.lanes) != [] && !IsBlank(name) ==>
        ids.counter == old(ids.counter) + 1 && state == Engine.SavePreset(old(state), name, IdText(PresetId, now, ids.counter), now)
      ensures countdownJob == old(countdownJob) && restJob == old(restJob)
    {
      InvLater(state, ids.counter, clock, now);
      clock := now;
      if state.lanes == [] || IsBlank(name) {
        return;
      }
      InvMoreIssued(state, ids.counter, ids.counter + 1, now);
      var id := ids.Generate(PresetId, now);
      InvOtherFields(state, Engine.SavePreset(state, name, id, now), ids.counter, now);
      state := Engine.SavePreset(state, name, id, now);
    }

    /**
     * `loadPreset`: nothing happens for an unknown id; otherwise one lane id
     * is generated per saved lane name, in order, and the preset's lanes
     * replace the current ones.
     */
    method LoadPreset(presetId: string, now: int)
      requires Valid() && clock <= now
      modifies this, ids
      ensures Valid() && clock == now
      ensures Engine.FindPreset(old(state.presets), presetId).None? ==>
        state == old(state) && ids.counter == old(ids.counter)
      ensures Engine.FindPreset(old(state.presets), presetId).Some? ==>
        var p := Engine.FindPreset(old(state.presets), presetId).value;
        && ids.counter == old(ids.counter) + |p.laneNames|
        && state == Engine.LoadPreset(old(state), p, LaneIds(now, old(ids.counter), |p.laneNames|))
      ensures countdownJob == old(countdownJob) && restJob == old(restJob)
    {
      InvLater(state, ids.counter, clock, now);
      clock := now;
      var found := Engine.FindPreset(state.presets, presetId);
      if found.None? {
        return;
      }
      var p := found.value;
      LoadPresetInv(state, p, now, ids.counter, clock);
      var newIds := GenerateLaneIds(|p.laneNames|, now);
      state := Engine.LoadPreset(state, p, newIds);
    }

    /** One `generateId()` call per lane, in order. */
    method GenerateLaneIds(n: nat, now: int) returns (newIds: seq<string>)
      modifies ids
      ensures ids.counter == old(ids.counter) + n
      ensures newIds == LaneIds(now, old(ids.counter), n)
    {
      newIds := [];
      for i := 0 to n
        invariant ids.counter == old(ids.counter) + i
        invariant |newIds| == i
        invariant forall j :: 0 <= j < i ==> newIds[j] == IdText(LaneId, now, old(ids.counter) + j + 1)
      {
        var id := ids.Generate(LaneId, now);
        newIds := newIds + [id];
      }
      assert newIds == LaneIds(now, old(ids.counter), n);
    }

    method DeletePreset(presetId: string)
      requires Valid()
      modifies this
      ensures Valid() && clock == old(clock)
      ensures state == Engine.DeletePreset(old(state), presetId)
      ensures countdownJob == old(countdownJob) && restJob == old(restJob)
    {
      state := Engine.DeletePreset(state, presetId);
      InvOtherFields(old(state), state, ids.counter, clock);
    }

    // -------------------------------------------------------------------------
    // Pace markers and coach notes

    method AddPaceMarker(event: RaceEvent, splitInterval: SplitInterval, targetTime: int, now: int)
      requires Valid() && clock <= now
      modifies this, ids
      ensures Valid() && clock == now
      ensures ids.counter == old(ids.counter) + 1
      ensures state == Engine.AddPaceMarker(old(state), IdText(PaceId, now, ids.counter), event, splitInterval, targetTime)
      ensures countdownJob == old(countdownJob) && restJob == old(restJob)
    {
      InvLater(state, ids.counter, clock, now);
      clock := now;
      InvMoreIssued(state, ids.counter, ids.counter + 1, now);
      var id := ids.Generate(PaceId, now);
      InvOtherFields(state, Engine.AddPaceMarker(state, id, event, splitInterval, targetTime), ids.counter, now);
      state := Engine.AddPaceMarker(state, id, event, splitInterval, targetTime);
    }

    method RemovePaceMarker(markerId: string)
      requires Valid()
      modifies this
      ensures Valid() && clock == old(clock)
      ensures state == Engine.RemovePaceMarker(old(state), markerId)
      ensures countdownJob == old(countdownJob) && restJob == old(restJob)
    {
      state := Engine.RemovePaceMarker(state, markerId);
      InvOtherFields(old(state), state, ids.counter, clock);
    }

    method TogglePaceMarkerVisibility(markerId: string)
      requires Valid()
      modifies this
      ensures Valid() && clock == old(clock)
      ensures state == Engine.TogglePaceMarker(old(state), markerId)
      ensures countdownJob == old(countdownJob) && restJob == old(restJob)
    {
      state := Engine.TogglePaceMarker(state, markerId);
      InvOtherFields(old(state), state, ids.counter, clock);
    }

    /** `addCoachNote`: an id is generated only for text that is not blank. */
    method AddCoachNote(text: string, now: int)
      requires Valid() && clock <= now
      modifies this, ids
      ensures Valid() && clock == now
      ensures IsBlank(text) ==> state == old(state) && ids.counter == old(ids.counter)
      ensures !IsBlank(text) ==>
        ids.counter == old(ids.counter) + 1 && state == Engine.AddCoachNote(old(state), text, IdText(NoteId, now, ids.counter))
      ensures countdownJob == old(countdownJob) && restJob == old(restJob)
    {
      InvLater(state, ids.counter, clock, now);
      clock := now;
      if IsBlank(text) {
        return;
      }
      InvMoreIssued(state, ids.counter, ids.counter + 1, now);
      var id := ids.Generate(NoteId, now);
      InvOtherFields(state, Engine.AddCoachNote(state, text, id), ids.counter, now);
      state := Engine.AddCoachNote(state, text, id);
    }

    method RemoveCoachNote(noteId: string)
      requires Valid()
      modifies this
      ensures Valid() && clock == old(clock)
      ensures state == Engine.RemoveCoachNote(old(state), noteId)
      ensures countdownJob == old(countdownJob) && restJob == old(restJob)
    {
      state := Engine.RemoveCoachNote(state, noteId);
      InvOtherFields(old(state), state, ids.counter, clock);
    }

    method UpdateCoachNote(noteId: string, text: string)
      requires Valid()
      modifies this
      ensures Valid() && clock == old(clock)
      ensures state == Engine.UpdateCoachNote(old(state), noteId, text)
      ensures countdownJob == old(countdownJob) && restJob == old(restJob)
    {
      state := Engine.UpdateCoachNote(state, noteId, text);
      InvOtherFields(old(state), state, ids.counter, clock);
    }

    method ToggleNoteVisibility(noteId: string)
      requires Valid()
      modifies this
      ensures Valid() && clock == old(clock)
      ensures state == Engine.ToggleNote(old(state), noteId)
      ensures countdownJob == old(countdownJob) && restJob == old(restJob)
    {
      state := Engine.ToggleNote(state, noteId);
      InvOtherFields(old(state), state, ids.counter, clock);
    }

    // -------------------------------------------------------------------------
    // Settings and dialogs

    method SetTheme(theme: AppTheme)
      requires Valid()
      modifies this
      ensures Valid() && clock == old(clock)
      ensures state == old(state).(theme := theme, showThemeSelector := false)
      ensures countdownJob == old(countdownJob) && restJob == old(restJob)
    {
      state := state.(theme := theme, showThemeSelector := false);
      InvOtherFields(old(state), state, ids.counter, clock);
    }

    method SetColorPalette(palette: string)
      requires Valid()
      modifies this
      ensures Valid() && clock == old(clock)
      ensures state == old(state).(colorPalette := palette)
      ensures countdownJob == old(countdownJob) && restJob == old(restJob)
    {
      state := state.(colorPalette := palette);
      InvOtherFields(old(state), state, ids.counter, clock);
    }

    method ExpandLane(laneId: Option<string>)
      requires Valid()
      modifies this
      ensures Valid() && clock == old(clock)
      ensures state == old(state).(expandedLaneId := laneId)
      ensures countdownJob == old(countdownJob) && restJob == old(restJob)
    {
      state := state.(expandedLaneId := laneId);
      InvOtherFields(old(state), state, ids.counter, clock);
    }

    method ShowDialog(dialog: Engine.DialogType)
      requires Valid()
      modifies this
      ensures Valid() && clock == old(clock)
      ensures state == Engine.ShowDialog(old(state), dialog)
      ensures countdownJob == old(countdownJob) && restJob == old(restJob)
    {
      state := Engine.ShowDialog(state, dialog);
      InvOtherFields(old(state), state, ids.counter, clock);
    }

    method ShowRenameLaneDialog(laneId: string)
      requires Valid()
      modifies this
      ensures Valid() && clock == old(clock)
      ensures state == old(state).(showRenameLaneDialog := Some(laneId))
      ensures countdownJob == old(countdownJob) && restJob == old(restJob)
    {
      state := state.(showRenameLaneDialog := Some(laneId));
      InvOtherFields(old(state), state, ids.counter, clock);
    }

    method DismissDialog()
      requires Valid()
      modifies this
      ensures Valid() && clock == old(clock)
      ensures state == Engine.DismissDialog(old(state))
      ensures countdownJob == old(countdownJob) && restJob == old(restJob)
    {
      state := Engine.DismissDialog(state);
      InvOtherFields(old(state), state, ids.counter, clock);
    }

    method ToggleMenuDropdown()
      requires Valid()
      modifies this
      ensures Valid() && clock == old(clock)
      ensures state == old(state).(showMenuDropdown := !old(state).showMenuDropdown)
      ensures countdownJob == old(countdownJob) && restJob == old(restJob)
    {
      state := state.(showMenuDropdown := !state.showMenuDropdown);
      InvOtherFields(old(state), state, ids.counter, clock);
    }

    method ToggleShowLaps()
      requires Valid()
      modifies this
      ensures Valid() && clock == old(clock)
      ensures state == old(state).(showLapsInCards := !old(state).showLapsInCards)
      ensures countdownJob == old(countdownJob) && restJob == old(restJob)
    {
      state := state.(showLapsInCards := !state.showLapsInCards);
      InvOtherFields(old(state), state, ids.counter, clock);
    }

    /**
     * One pass of the refresh loop: while a lane runs, a countdown shows or
     * the rest timer runs, the state records the clock reading; otherwise
     * nothing changes.
     */
    method Refresh(now: int)
      requires Valid() && clock <= now
      modifies this
      ensures Valid() && clock == now
      ensures Busy(old(state)) ==> state == old(state).(currentTimeMillis := now)
      ensures !Busy(old(state)) ==> state == old(state)
      ensures countdownJob == old(countdownJob) && restJob == old(restJob)
    {
      InvLater(state, ids.counter, clock, now);
      clock := now;
      if Busy(state) {
        var next := state.(currentTimeMillis := now);
        InvOtherFields(state, next, ids.counter, clock);
        state := next;
      }
    }

    /** `onEvent`: each event goes to its handler. */
    method OnEvent(e: RaceTimerEvent, now: int)
      requires Valid() && clock <= now
      requires e.ReorderLanes? ==>
        e.fromIndex == e.toIndex || (0 <= e.fromIndex < |state.lanes| && 0 <= e.toIndex < |state.lanes|)
      modifies this, ids
      ensures Valid() && old(clock) <= clock <= now
      ensures ids.counter >= old(ids.counter)
      ensures Snap() == Transition(old(Snap()), e, now)
    {
      if LaneEvent(e) {
        OnLaneEvent(e, now);
      } else {
        OnOtherEvent(e, now);
      }
    }

    /** The handlers of the lane and timing events. */
    method OnLaneEvent(e: RaceTimerEvent, now: int)
      requires Valid() && clock <= now && LaneEvent(e)
      requires e.ReorderLanes? ==>
        e.fromIndex == e.toIndex || (0 <= e.fromIndex < |state.lanes| && 0 <= e.toIndex < |state.lanes|)
      modifies this, ids
      ensures Valid() && old(clock) <= clock <= now
      ensures ids.counter >= old(ids.counter)
      ensures Snap() == LaneTransition(old(Snap()), e, now)
    {
      match e
      case AddLane => AddLane(now);
      case RemoveLane(laneId) => RemoveLane(laneId);
      case RenameLane(laneId, newName) => RenameLane(laneId, newName);
      case ReorderLanes(fromIndex, toIndex) => ReorderLanes(fromIndex, toIndex);
      case StartAll => StartAll(now);
      case StopAll => StopAll(now);
      case LapAll => LapAll(now);
      case LapLane(laneId) => LapLane(laneId, now);
      case StartLane(laneId) => StartLane(laneId, now);
      case StopLane(laneId) => StopLane(laneId, now);
      case ResetLane(laneId) => ResetLane(laneId);
      case ResetAllLanes => ResetAllLanes();
      case ResetEverything => ResetEverything();
    }

    /** The handlers of the timer, preset, marker, note and display events. */
    method OnOtherEvent(e: RaceTimerEvent, now: int)
      requires Valid() && clock <= now && !LaneEvent(e)
      modifies this, ids
      ensures Valid() && old(clock) <= clock <= now
      ensures ids.counter >= old(ids.counter)
      ensures Snap() == OtherTransition(old(Snap()), e, now)
    {
      if TimerEvent(e) {
        OnTimerEvent(e, now);
      } else if NoteEvent(e) {
        OnNoteEvent(e, now);
      } else {
        OnDisplayEvent(e, now);
      }
    }

    /** The handlers of the countdown, rest-timer and preset events. */
    method OnTimerEvent(e: RaceTimerEvent, now: int)
      requires Valid() && clock <= now && TimerEvent(e)
      modifies this, ids
      ensures Valid() && old(clock) <= clock <= now
      ensures ids.counter >= old(ids.counter)
      ensures Snap() == TimerTransition(old(Snap()), e, now)
    {
      match e
      case StartCountdown(seconds) => StartCountdown(seconds);
      case StartRestTimer(seconds) => StartRestTimer(seconds);
      case StopRestTimer => StopRestTimer();
      case AddCustomRestPreset(seconds) => AddCustomRestPreset(seconds);
      case RemoveCustomRestPreset(seconds) => RemoveCustomRestPreset(seconds);
      case SavePreset(name) => SavePreset(name, now);
      case LoadPreset(presetId) => LoadPreset(presetId, now);
      case DeletePreset(presetId) => DeletePreset(presetId);
    }

    /** The pace-marker and coach-note events, each group to its dispatcher. */
    method OnNoteEvent(e: RaceTimerEvent, now: int)
      requires Valid() && clock <= now && NoteEvent(e)
      modifies this, ids
      ensures Valid() && old(clock) <= clock <= now
      ensures ids.counter >= old(ids.counter)
      ensures Snap() == MarkerOrNoteTransition(old(Snap()), e, now)
    {
      if e.AddPaceMarker? || e.RemovePaceMarker? || e.TogglePaceMarkerVisibility? {
        OnMarkerEvent(e, now);
      } else {
        OnCoachNoteEvent(e, now);
      }
    }

    /** The handlers of the pace-marker events. */
    method OnMarkerEvent(e: RaceTimerEvent, now: int)
      requires Valid() && clock <= now
      requires e.AddPaceMarker? || e.RemovePaceMarker? || e.TogglePaceMarkerVisibility?
      modifies this, ids
      ensures Valid() && old(clock) <= clock <= now
      ensures ids.counter >= old(ids.counter)
      ensures Snap() == MarkerTransition(old(Snap()), e, now)
    {
      match e
      case AddPaceMarker(event, splitInterval, targetTime) => AddPaceMarker(event, splitInterval, targetTime, now);
      case RemovePaceMarker(markerId) => RemovePaceMarker(markerId);
      case TogglePaceMarkerVisibility(markerId) => TogglePaceMarkerVisibility(markerId);
    }

    /** The handlers of the coach-note events. */
    method OnCoachNoteEvent(e: RaceTimerEvent, now: int)
      requires Valid() && clock <= now
      requires e.AddCoachNote? || e.RemoveCoachNote? || e.UpdateCoachNote? || e.ToggleNoteVisibility?
      modifies this, ids
      ensures Valid() && old(clock) <= clock <= now
      ensures ids.counter >= old(ids.counter)
      ensures Snap() == NoteTransition(old(Snap()), e, now)
    {
      match e
      case AddCoachNote(text) => AddCoachNote(text, now);
      case RemoveCoachNote(noteId) => RemoveCoachNote(noteId);
      case UpdateCoachNote(noteId, text) => UpdateCoachNote(noteId, text);
      case ToggleNoteVisibility(noteId) => ToggleNoteVisibility(noteId);
    }

    /** The handlers of the settings, lane-expansion and dialog events. */
    method OnDisplayEvent(e: RaceTimerEvent, now: int)
      requires Valid() && clock <= now && !LaneEvent(e) && !TimerEvent(e) && !NoteEvent(e)
      modifies this, ids
      ensures Valid() && old(clock) <= clock <= now
      ensures ids.counter >= old(ids.counter)
      ensures Snap() == DisplayTransition(old(Snap()), e, now)
    {
      match e
      case SetTheme(theme) => SetTheme(theme);
      case SetColorPalette(palette) => SetColorPalette(palette);
      case ExpandLane(laneId) => ExpandLane(laneId);
      case ShowDialog(dialog) => ShowDialog(dialog);
      case ShowRenameLaneDialog(laneId) => ShowRenameLaneDialog(laneId);
      case DismissDialog => DismissDialog();
      case ToggleMenuDropdown => ToggleMenuDropdown();
      case ToggleShowLaps => ToggleShowLaps();
    }
  }

  /** The events that add, remove, rename, reorder, start, stop, lap or reset lanes. */
  predicate TimerEvent(e: RaceTimerEvent) {
    || e.StartCountdown? || e.StartRestTimer? || e.StopRestTimer? || e.AddCustomRestPreset?
    || e.RemoveCustomRestPreset? || e.SavePreset? || e.LoadPreset? || e.DeletePreset?
  }

  predicate NoteEvent(e: RaceTimerEvent) {
    || e.AddPaceMarker? || e.RemovePaceMarker? || e.TogglePaceMarkerVisibility? || e.AddCoachNote?
    || e.RemoveCoachNote? || e.UpdateCoachNote? || e.ToggleNoteVisibility?
  }

  predicate LaneEvent(e: RaceTimerEvent) {
    || e.AddLane? || e.RemoveLane? || e.RenameLane? || e.ReorderLanes? || e.StartAll? || e.StopAll?
    || e.LapAll? || e.LapLane? || e.StartLane? || e.StopLane? || e.ResetLane? || e.ResetAllLanes?
    || e.ResetEverything?
  }

  /** The refresh loop's test: a lane is running, a countdown is showing or the rest timer runs. */
  predicate Busy(s: Engine.RaceTimerState) {
    (exists j :: 0 <= j < |s.lanes| && s.lanes[j].isRunning) || s.raceState == Countdown || s.isRestTimerRunning
  }
}
