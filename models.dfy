/**
 * The race timer's domain records: laps, lanes and their derived timing
 * values, presets, pace markers and coach notes. Every clock read of the
 * original becomes an explicit `now` (milliseconds).
 */
module Models {
  import opened Wrappers
  import opened Arith
  import opened Seqs

  /** One recorded lap; `timestamp` is the wall-clock time at which it was recorded. */
  datatype LapTime = LapTime(lapNumber: int, elapsedTime: int, lapDuration: int, timestamp: int)

  datatype LaneColor = Default | Red | Orange | Yellow | Green | Teal | Blue | Indigo | Pink | Cyan

  /** `LaneColor.entries`, in declaration order. */
  const LaneColors: seq<LaneColor> := [Default, Red, Orange, Yellow, Green, Teal, Blue, Indigo, Pink, Cyan]

  /** The palette lists every colour exactly once. */
  lemma LaneColorsComplete()
    ensures |LaneColors| == 10 && NoDuplicates(LaneColors)
    ensures forall c: LaneColor :: c in LaneColors
  {
    forall c: LaneColor ensures c in LaneColors {
      var i := match c
        case Default => 0 case Red => 1 case Orange => 2 case Yellow => 3 case Green => 4
        case Teal => 5 case Blue => 6 case Indigo => 7 case Pink => 8 case Cyan => 9;
      assert LaneColors[i] == c;
    }
  }

  /** One stopwatch track. */
  datatype Lane = Lane(
    id: string,
    name: string,
    position: int,
    isRunning: bool,
    startTime: Option<int>,
    pausedElapsedTime: int,
    laps: seq<LapTime>,
    color: LaneColor)
  {
    /**
     * `currentElapsedTime` read at `now`: the paused total, plus the running
     * segment when the lane is running.
     */
    function CurrentElapsedTime(now: int): (t: int)
      ensures !(isRunning && startTime.Some?) ==> t == pausedElapsedTime
      ensures isRunning && startTime.Some? ==> t - pausedElapsedTime == now - startTime.value
    {
      if isRunning && startTime.Some? then pausedElapsedTime + (now - startTime.value)
      else pausedElapsedTime
    }

    /** `lastLapTime`: the elapsed time at the last lap, 0 before the first. */
    function LastLapTime(): (t: int)
      ensures laps == [] ==> t == 0
      ensures laps != [] ==> t == laps[|laps| - 1].elapsedTime
    {
      if laps == [] then 0 else laps[|laps| - 1].elapsedTime
    }

    /** `currentLapDuration`: time run since the last lap. */
    function CurrentLapDuration(now: int): (d: int)
      ensures laps == [] ==> d == CurrentElapsedTime(now)
      ensures laps != [] ==> laps[|laps| - 1].elapsedTime + d == CurrentElapsedTime(now)
    {
      CurrentElapsedTime(now) - LastLapTime()
    }

    function LapCount(): nat { |laps| }

    /**
     * `averageLapTime`, computed on integers (see README): 0 without laps,
     * else the lap durations' total divided by the lap count, rounded down
     * when the total is not negative.
     */
    function AverageLapTime(): (a: int)
      ensures laps == [] ==> a == 0
      ensures laps != [] && SumDurations(laps) >= 0 ==>
        0 <= a && a * |laps| <= SumDurations(laps) < (a + 1) * |laps|
    {
      if laps == [] then 0
      else
        var total := SumDurations(laps);
        if total >= 0 then
          NonNegativeAgrees(total, |laps|);
          DivBounds(total, |laps|);
          Quot(total, |laps|)
        else Quot(total, |laps|)
    }

    /** `bestLapTime`: the shortest lap duration, None without laps. */
    function BestLapTime(): (b: Option<int>)
      ensures b.None? <==> laps == []
      ensures b.Some? ==> exists i :: 0 <= i < |laps| && laps[i].lapDuration == b.value
      ensures b.Some? ==> forall i :: 0 <= i < |laps| ==> b.value <= laps[i].lapDuration
    {
      MinDuration(laps)
    }

    /** `worstLapTime`: the longest lap duration, None without laps. */
    function WorstLapTime(): (w: Option<int>)
      ensures w.None? <==> laps == []
      ensures w.Some? ==> exists i :: 0 <= i < |laps| && laps[i].lapDuration == w.value
      ensures w.Some? ==> forall i :: 0 <= i < |laps| ==> laps[i].lapDuration <= w.value
    {
      MaxDuration(laps)
    }
  }

  /** A lane as the `Lane(id, name, position, color)` constructor call builds it. */
  function NewLane(id: string, name: string, position: int, color: LaneColor): (l: Lane)
    ensures !l.isRunning && l.startTime.None? && l.pausedElapsedTime == 0 && l.laps == []
    ensures l.id == id && l.name == name && l.position == position && l.color == color
  {
    Lane(id, name, position, false, None, 0, [], color)
  }

  function SumDurations(laps: seq<LapTime>): int {
    if laps == [] then 0 else SumDurations(laps[..|laps| - 1]) + laps[|laps| - 1].lapDuration
  }

  function MinDuration(laps: seq<LapTime>): (m: Option<int>)
    ensures m.None? <==> laps == []
    ensures m.Some? ==> exists i :: 0 <= i < |laps| && laps[i].lapDuration == m.value
    ensures m.Some? ==> forall i :: 0 <= i < |laps| ==> m.value <= laps[i].lapDuration
  {
    if laps == [] then None
    else
      var last := laps[|laps| - 1].lapDuration;
      match MinDuration(laps[..|laps| - 1])
      case None => Some(last)
      case Some(m) => Some(if last < m then last else m)
  }

  function MaxDuration(laps: seq<LapTime>): (m: Option<int>)
    ensures m.None? <==> laps == []
    ensures m.Some? ==> exists i :: 0 <= i < |laps| && laps[i].lapDuration == m.value
    ensures m.Some? ==> forall i :: 0 <= i < |laps| ==> laps[i].lapDuration <= m.value
  {
    if laps == [] then None
    else
      var last := laps[|laps| - 1].lapDuration;
      match MaxDuration(laps[..|laps| - 1])
      case None => Some(last)
      case Some(m) => Some(if last > m then last else m)
  }

  /** The best lap is never slower than the worst one. */
  lemma BestNotAboveWorst(l: Lane)
    ensures l.BestLapTime().None? <==> l.WorstLapTime().None?
    ensures l.BestLapTime().Some? ==> l.BestLapTime().value <= l.WorstLapTime().value
  {
    if l.laps != [] {
      assert l.BestLapTime().value <= l.laps[0].lapDuration <= l.WorstLapTime().value;
    }
  }

  /** While the clock moves forward, a lane's elapsed time does not decrease. */
  lemma ElapsedMonotone(l: Lane, t1: int, t2: int)
    requires t1 <= t2
    ensures l.CurrentElapsedTime(t1) <= l.CurrentElapsedTime(t2)
    ensures !l.isRunning ==> l.CurrentElapsedTime(t1) == l.CurrentElapsedTime(t2)
  {
  }

  // ---------------------------------------------------------------------------
  // The lap list invariant

  /** The elapsed time the lap at index `i` is measured from. */
  function PrevElapsed(laps: seq<LapTime>, i: int): int
    requires 0 <= i < |laps|
  {
    if i == 0 then 0 else laps[i - 1].elapsedTime
  }

  /**
   * Laps are numbered 1, 2, ... in order, each lap's duration is the
   * difference from the previous lap's elapsed time (from 0 for the first),
   * and no lap is shorter than the 100 ms debounce.
   */
  predicate LapsWellFormed(laps: seq<LapTime>) {
    forall i :: 0 <= i < |laps| ==>
      && laps[i].lapNumber == i + 1
      && laps[i].lapDuration == laps[i].elapsedTime - PrevElapsed(laps, i)
      && laps[i].lapDuration >= 100
  }

  /** `isRunning` holds exactly when a start time is recorded. */
  predicate RunningIffStarted(l: Lane) { l.isRunning <==> l.startTime.Some? }

  /** The timing invariant every lane keeps. */
  predicate LaneValid(l: Lane) {
    RunningIffStarted(l) && l.pausedElapsedTime >= 0 && LapsWellFormed(l.laps)
  }

  /** Well-formed laps are at least 100 ms apart, so their elapsed times strictly increase. */
  lemma {:induction false} LapsSpaced(laps: seq<LapTime>, i: int, j: int)
    requires LapsWellFormed(laps) && 0 <= i < j < |laps|
    ensures laps[i].elapsedTime + 100 * (j - i) <= laps[j].elapsedTime
    decreases j - i
  {
    if j > i + 1 {
      LapsSpaced(laps, i, j - 1);
    }
  }

  /** The lap durations add up to the elapsed time of the last lap. */
  lemma {:induction false} DurationsSum(laps: seq<LapTime>)
    requires LapsWellFormed(laps)
    ensures SumDurations(laps) == (if laps == [] then 0 else laps[|laps| - 1].elapsedTime)
    decreases |laps|
  {
    if laps != [] {
      var init := laps[..|laps| - 1];
      assert LapsWellFormed(init) by {
        forall i | 0 <= i < |init| ensures PrevElapsed(init, i) == PrevElapsed(laps, i) { }
      }
      DurationsSum(init);
    }
  }

  /** Every lap of a well-formed list took at least 100 ms, so the average does too. */
  lemma AverageAtLeastDebounce(l: Lane)
    requires LapsWellFormed(l.laps) && l.laps != []
    ensures l.AverageLapTime() >= 100
    ensures l.BestLapTime().value >= 100
  {
    SumAtLeast(l.laps);
    QuotAtLeast(SumDurations(l.laps), |l.laps|, 100);
  }

  lemma {:induction false} SumAtLeast(laps: seq<LapTime>)
    requires LapsWellFormed(laps)
    ensures SumDurations(laps) >= 100 * |laps|
    decreases |laps|
  {
    if laps != [] {
      var init := laps[..|laps| - 1];
      assert LapsWellFormed(init) by {
        forall i | 0 <= i < |init| ensures PrevElapsed(init, i) == PrevElapsed(laps, i) { }
      }
      SumAtLeast(init);
    }
  }

  // ---------------------------------------------------------------------------
  // Presets, pace markers, notes and the enumerations around them

  /** A saved lane set; `createdAt` is the wall-clock time it was saved at. */
  datatype TimerPreset = TimerPreset(
    id: string,
    name: string,
    laneNames: seq<string>,
    laneColors: seq<LaneColor>,
    createdAt: int)

  datatype AppTheme = SystemTheme | Light | Dark | Dynamic

  datatype RaceState = Idle | Countdown | Running | Paused | Finished

  /** Standard race events with their display names and distances in metres. */
  datatype RaceEvent =
    | M100 | M200 | M400 | M800 | M1500 | M1600 | M3000 | M3200 | M5000 | M10000
    | HalfMarathon | Marathon
  {
    function DisplayName(): string {
      match this
      case M100 => "100m"
      case M200 => "200m"
      case M400 => "400m"
      case M800 => "800m"
      case M1500 => "1500m"
      case M1600 => "1 Mile"
      case M3000 => "3000m"
      case M3200 => "2 Mile"
      case M5000 => "5K"
      case M10000 => "10K"
      case HalfMarathon => "Half Marathon"
      case Marathon => "Marathon"
    }

    function DistanceMeters(): (d: int)
      ensures d >= 100
    {
      match this
      case M100 => 100
      case M200 => 200
      case M400 => 400
      case M800 => 800
      case M1500 => 1500
      case M1600 => 1609
      case M3000 => 3000
      case M3200 => 3219
      case M5000 => 5000
      case M10000 => 10000
      case HalfMarathon => 21097
      case Marathon => 42195
    }
  }

  /** Split interval options for pace markers. */
  datatype SplitInterval = SplitM100 | SplitM200 | SplitM400 | Mile | Km
  {
    function DisplayName(): string {
      match this
      case SplitM100 => "100m"
      case SplitM200 => "200m"
      case SplitM400 => "400m"
      case Mile => "Mile"
      case Km => "1K"
    }

    function DistanceMeters(): (d: int)
      ensures d >= 100
    {
      match this
      case SplitM100 => 100
      case SplitM200 => 200
      case SplitM400 => 400
      case Mile => 1609
      case Km => 1000
    }
  }

  /** Expected split times for a target time over an event; `targetTime` in milliseconds. */
  datatype PaceMarker = PaceMarker(
    id: string,
    event: RaceEvent,
    splitInterval: SplitInterval,
    targetTime: int,
    isVisible: bool)

  /** One row of a pace bar (`label` is a Dafny keyword, hence `splitLabel`). */
  datatype PaceSplit = PaceSplit(splitLabel: string, distance: int, time: int, isFinal: bool)

  datatype CoachNote = CoachNote(id: string, text: string, isVisible: bool)
}
