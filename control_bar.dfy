/**
 * The control bar: the enabled state of the floating toolbar's buttons,
 * the label of the countdown overlay and the remaining time the rest
 * timer bar prints.
 */
module ControlBar {
  import opened Arith
  import opened Text
  import opened TimeUtils
  import opened Models
  import Engine

  // ---------------------------------------------------------------------------
  // Floating toolbar

  /** Which of the toolbar's race buttons are enabled (Add Lane always is). */
  datatype Toolbar = Toolbar(startAll: bool, stopAll: bool, lapAll: bool)

  /**
   * `FloatingToolbar`: Start All needs lanes and a race that is not running,
   * Stop All lanes and a running race, Lap All lanes and a race that is
   * running or paused.
   */
  function FloatingToolbar(raceState: RaceState, hasLanes: bool): (t: Toolbar)
    ensures t.startAll <==> hasLanes && raceState != Running
    ensures t.stopAll <==> hasLanes && raceState == Running
    ensures t.lapAll <==> hasLanes && (raceState == Running || raceState == Paused)
    ensures !hasLanes ==> !t.startAll && !t.stopAll && !t.lapAll
    ensures hasLanes ==> (t.startAll <==> !t.stopAll)
    ensures t.stopAll ==> t.lapAll
    ensures t.lapAll && !t.stopAll ==> raceState == Paused
  {
    var isRunning := raceState == Running;
    Toolbar(hasLanes && !isRunning, hasLanes && isRunning, hasLanes && (isRunning || raceState == Paused))
  }

  /** The toolbar the race screen shows for a state: it has lanes when the lane list is not empty. */
  function ToolbarFor(s: Engine.RaceTimerState): Toolbar {
    FloatingToolbar(s.raceState, |s.lanes| > 0)
  }

  /**
   * The toolbar follows the race: after Start All only Stop All and Lap
   * All are offered, after Stop All only Start All and Lap All, after a
   * reset of all lanes only Start All; a lap changes nothing.
   */
  lemma ToolbarFollowsRace(s: Engine.RaceTimerState, now: int)
    requires |s.lanes| > 0
    ensures ToolbarFor(Engine.StartAll(s, now)) == Toolbar(false, true, true)
    ensures ToolbarFor(Engine.StopAll(s, now)) == Toolbar(true, false, true)
    ensures ToolbarFor(Engine.ResetAllLanes(s)) == Toolbar(true, false, false)
    ensures ToolbarFor(Engine.LapAll(s, now)) == ToolbarFor(s)
  {
  }

  // ---------------------------------------------------------------------------
  // Countdown overlay

  /** The overlay's text: the seconds left while there are any, then "GO!". */
  function CountdownLabel(seconds: int): (r: string)
    ensures r == "GO!" <==> seconds <= 0
  {
    if seconds > 0 then
      assert IsDigit(IntToString(seconds)[0]);
      IntToString(seconds)
    else "GO!"
  }

  /** Before "GO!" the overlay shows the number of seconds left and nothing else. */
  lemma CountdownLabelReads(seconds: int)
    requires seconds > 0
    ensures NonDigits(CountdownLabel(seconds)) == [] && Values(CountdownLabel(seconds)) == [seconds]
  {
    UnitReads(IntToString(seconds), seconds, "");
    assert IntToString(seconds) + "" == IntToString(seconds);
  }

  /**
   * Along a countdown the overlay counts the remaining seconds and says
   * "GO!" on the step that brings the counter to zero.
   */
  lemma OverlayFollowsCountdown(s: Engine.RaceTimerState, next: int, now: int)
    ensures var r := Engine.CountdownTick(s, Engine.CountingDown(next), now).0;
      next >= 1 ==> Values(CountdownLabel(r.countdownRemaining)) == [next]
    ensures var r := Engine.CountdownTick(s, Engine.CountingDown(next), now).0;
      next < 1 ==> CountdownLabel(r.countdownRemaining) == "GO!"
  {
    if next >= 1 {
      CountdownLabelReads(next);
    }
  }

  // ---------------------------------------------------------------------------
  // Rest timer bar

  /** `formatRestTime`: "M:SS" from one minute on, "Ns" below. */
  function FormatRestTime(seconds: int): string {
    var min := Quot(seconds, 60);
    var sec := Rem(seconds, 60);
    if min > 0 then IntToString(min) + ":" + Pad2(sec) else IntToString(sec) + "s"
  }

  /**
   * The rest time reads back as its value: below a minute the seconds and
   * an "s"; from a minute on the minutes (not wrapped into hours), ":" and
   * two-digit seconds.
   */
  lemma FormatRestTimeReadsBack(seconds: int)
    requires seconds >= 0
    ensures var r := FormatRestTime(seconds);
      seconds < 60 ==> NonDigits(r) == "s" && Values(r) == [seconds] && Canonical(Runs(r)[0])
    ensures var r := FormatRestTime(seconds);
      var v := Values(r);
      seconds >= 60 ==>
        && NonDigits(r) == ":" && |v| == 2 && Canonical(Runs(r)[0]) && |Runs(r)[1]| == 2
        && v[0] == seconds / 60 && v[1] < 60 && v[0] * 60 + v[1] == seconds
  {
    NonNegativeAgrees(seconds, 60);
    var m, s := seconds / 60, seconds % 60;
    NumeralField(m);
    NumeralField(s);
    Pad2Field(s);
    if m > 0 {
      MinSecReads(IntToString(m), Pad2(s), m, s);
    } else {
      UnitReads(IntToString(s), s, "s");
    }
  }
}
