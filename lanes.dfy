/**
 * The per-lane steps of the race timer view model: start, stop, lap and
 * reset one lane at a clock reading `now`, and the list-level helpers the
 * lane transitions share (ids, names, colours, renumbering, the colour a new
 * lane gets, moving a lane).
 */
module Lanes {
  import opened Wrappers
  import opened Seqs
  import opened Models

  /** A running lane's start time is not in the future. */
  predicate StartedBy(l: Lane, now: int) {
    l.isRunning && l.startTime.Some? ==> l.startTime.value <= now
  }

  /** Two versions of a lane that agree on everything but timing and laps. */
  predicate SameIdentity(a: Lane, b: Lane) {
    a.id == b.id && a.name == b.name && a.position == b.position && a.color == b.color
  }

  /**
   * `startLane`/`startAll` on one lane: a stopped lane starts counting from
   * `now`; a running lane is left alone. The elapsed time shown at `now` does
   * not jump, and from then on it grows with the clock.
   */
  function StartLane(l: Lane, now: int): (r: Lane)
    ensures SameIdentity(l, r) && r.laps == l.laps && r.pausedElapsedTime == l.pausedElapsedTime
    ensures l.isRunning ==> r == l
    ensures RunningIffStarted(l) ==> r.isRunning && r.startTime.Some?
    ensures !l.isRunning ==> forall t :: r.CurrentElapsedTime(t) == l.pausedElapsedTime + (t - now)
    ensures RunningIffStarted(l) ==> r.CurrentElapsedTime(now) == l.CurrentElapsedTime(now)
    ensures LaneValid(l) ==> LaneValid(r)
    ensures StartedBy(l, now) ==> StartedBy(r, now)
  {
    if !l.isRunning then l.(isRunning := true, startTime := Some(now)) else l
  }

  /**
   * `stopLane`/`stopAll` on one lane: a running lane folds the time run since
   * its start into the paused total and stops. The elapsed time shown at `now`
   * does not change, and it stays frozen afterwards.
   */
  function StopLane(l: Lane, now: int): (r: Lane)
    ensures SameIdentity(l, r) && r.laps == l.laps
    ensures !(l.isRunning && l.startTime.Some?) ==> r == l
    ensures RunningIffStarted(l) ==> !r.isRunning && r.startTime.None?
    ensures r.CurrentElapsedTime(now) == l.CurrentElapsedTime(now)
    ensures RunningIffStarted(l) ==> forall t :: r.CurrentElapsedTime(t) == l.CurrentElapsedTime(now)
    ensures LaneValid(l) && StartedBy(l, now) ==> LaneValid(r)
    ensures StartedBy(r, now)
  {
    if l.isRunning && l.startTime.Some? then
      var elapsed := l.pausedElapsedTime + (now - l.startTime.value);
      l.(isRunning := false, startTime := None, pausedElapsedTime := elapsed)
    else l
  }

  /**
   * `recordLap`: a lap is recorded exactly when at least 100 ms have run
   * since the last one; the earlier laps stay as they are, the new lap ends
   * at the current elapsed time so the current lap starts again from zero,
   * and the lap list stays well formed.
   */
  function RecordLap(l: Lane, now: int): (r: Lane)
    ensures r.(laps := l.laps) == l
    ensures |r.laps| == |l.laps| + (if l.CurrentLapDuration(now) >= 100 then 1 else 0)
    ensures r.laps[..|l.laps|] == l.laps
    ensures |r.laps| > |l.laps| ==> r.LastLapTime() == l.CurrentElapsedTime(now) && r.CurrentLapDuration(now) == 0
    ensures LapsWellFormed(l.laps) ==> LapsWellFormed(r.laps)
  {
    var currentTime := l.CurrentElapsedTime(now);
    var lapDuration := currentTime - l.LastLapTime();
    if lapDuration < 100 then l
    else
      var lap := LapTime(l.LapCount() + 1, currentTime, lapDuration, now);
      assert LapsWellFormed(l.laps) ==> LapsWellFormed(l.laps + [lap]) by {
        if LapsWellFormed(l.laps) {
          AppendLap(l.laps, lap);
        }
      }
      assert (l.laps + [lap])[..|l.laps|] == l.laps;
      l.(laps := l.laps + [lap])
  }

  /** A lap numbered next, measured from the last lap and at least 100 ms long extends a well-formed list. */
  lemma AppendLap(laps: seq<LapTime>, lap: LapTime)
    requires LapsWellFormed(laps)
    requires lap.lapNumber == |laps| + 1 && lap.lapDuration >= 100
    requires lap.lapDuration == lap.elapsedTime - (if laps == [] then 0 else laps[|laps| - 1].elapsedTime)
    ensures LapsWellFormed(laps + [lap])
  {
    var s := laps + [lap];
    forall i | 0 <= i < |s|
      ensures s[i].lapNumber == i + 1
      ensures s[i].lapDuration == s[i].elapsedTime - PrevElapsed(s, i)
      ensures s[i].lapDuration >= 100
    {
      if i < |laps| {
        assert s[i] == laps[i];
        assert PrevElapsed(s, i) == PrevElapsed(laps, i);
      }
    }
  }

  /** The lap condition of `lapAll`/`lapLane`: the lane is running or has time on it. */
  predicate HasTime(l: Lane) { l.isRunning || l.pausedElapsedTime > 0 }

  /** `recordLap` behind the `lapAll`/`lapLane` guard. */
  function LapIfTimed(l: Lane, now: int): (r: Lane)
    ensures !HasTime(l) ==> r == l
    ensures HasTime(l) ==> r == RecordLap(l, now)
    ensures SameIdentity(l, r) && r.isRunning == l.isRunning && r.startTime == l.startTime
    ensures LaneValid(l) ==> LaneValid(r)
    ensures StartedBy(l, now) ==> StartedBy(r, now)
  {
    if HasTime(l) then RecordLap(l, now) else l
  }

  /** `resetLane`/`resetAllLanes` on one lane: a fresh lane with the same identity. */
  function ResetLane(l: Lane): (r: Lane)
    ensures r == NewLane(l.id, l.name, l.position, l.color)
    ensures LaneValid(r) && forall t :: r.CurrentElapsedTime(t) == 0 && StartedBy(r, t)
  {
    l.(isRunning := false, startTime := None, pausedElapsedTime := 0, laps := [])
  }

  // ---------------------------------------------------------------------------
  // Lists of lanes

  function Ids(lanes: seq<Lane>): (r: seq<string>)
    ensures |r| == |lanes| && forall i :: 0 <= i < |r| ==> r[i] == lanes[i].id
  {
    seq(|lanes|, i requires 0 <= i < |lanes| => lanes[i].id)
  }

  function Names(lanes: seq<Lane>): (r: seq<string>)
    ensures |r| == |lanes| && forall i :: 0 <= i < |r| ==> r[i] == lanes[i].name
  {
    seq(|lanes|, i requires 0 <= i < |lanes| => lanes[i].name)
  }

  function Colors(lanes: seq<Lane>): (r: seq<LaneColor>)
    ensures |r| == |lanes| && forall i :: 0 <= i < |r| ==> r[i] == lanes[i].color
  {
    seq(|lanes|, i requires 0 <= i < |lanes| => lanes[i].color)
  }

  predicate AllValid(lanes: seq<Lane>) {
    forall i :: 0 <= i < |lanes| ==> LaneValid(lanes[i])
  }

  predicate AllStartedBy(lanes: seq<Lane>, now: int) {
    forall i :: 0 <= i < |lanes| ==> StartedBy(lanes[i], now)
  }

  /** Lane `i` of the list sits at position `i + 1`. */
  predicate PositionsInOrder(lanes: seq<Lane>) {
    forall i :: 0 <= i < |lanes| ==> lanes[i].position == i + 1
  }

  /** The `mapIndexed { index, lane -> lane.copy(position = index + 1) }` step. */
  function Renumber(lanes: seq<Lane>): (r: seq<Lane>)
    ensures |r| == |lanes| && PositionsInOrder(r)
    ensures forall i :: 0 <= i < |r| ==> r[i] == lanes[i].(position := i + 1)
    ensures Ids(r) == Ids(lanes) && Names(r) == Names(lanes) && Colors(r) == Colors(lanes)
    ensures AllValid(lanes) ==> AllValid(r)
  {
    seq(|lanes|, i requires 0 <= i < |lanes| => lanes[i].(position := i + 1))
  }

  /**
   * The first colour of `palette` that `used` does not contain: Kotlin's
   * `palette.filter { it !in used }.firstOrNull()`.
   */
  function FirstFree(palette: seq<LaneColor>, used: seq<LaneColor>): (r: Option<LaneColor>)
    ensures r.None? <==> forall i :: 0 <= i < |palette| ==> palette[i] in used
    ensures r.Some? ==> r.value !in used
    ensures r.Some? ==> exists k :: 0 <= k < |palette| && palette[k] == r.value && (forall j :: 0 <= j < k ==> palette[j] in used)
  {
    if palette == [] then None
    else if palette[0] !in used then Some(palette[0])
    else
      var r := FirstFree(palette[1..], used);
      assert r.Some? ==> exists k :: 0 <= k < |palette| && palette[k] == r.value && (forall j :: 0 <= j < k ==> palette[j] in used) by {
        if r.Some? {
          var k :| 0 <= k < |palette[1..]| && palette[1..][k] == r.value && (forall j :: 0 <= j < k ==> palette[1..][j] in used);
          assert palette[k + 1] == r.value;
          forall j | 0 <= j < k + 1 ensures palette[j] in used {
            if j > 0 { assert palette[j] == palette[1..][j - 1]; }
          }
        }
      }
      assert r.None? ==> forall i :: 0 <= i < |palette| ==> palette[i] in used by {
        if r.None? {
          forall i | 0 <= i < |palette| ensures palette[i] in used {
            if i > 0 { assert palette[i] == palette[1..][i - 1]; }
          }
        }
      }
      r
  }

  /**
   * `addLane`'s colour: the first palette colour no lane uses, or, when all
   * ten are taken, the palette entry at the new position modulo ten.
   */
  function NextColor(used: seq<LaneColor>, newPosition: nat): (c: LaneColor)
    ensures FirstFree(LaneColors, used).Some? ==> c == FirstFree(LaneColors, used).value && c !in used
    ensures FirstFree(LaneColors, used).None? ==> c == LaneColors[newPosition % |LaneColors|]
  {
    match FirstFree(LaneColors, used)
    case Some(c) => c
    case None => LaneColors[newPosition % |LaneColors|]
  }

  /** Fewer than ten lanes always leave a colour free. */
  lemma FreeColorExists(used: seq<LaneColor>)
    requires |used| < |LaneColors|
    ensures FirstFree(LaneColors, used).Some?
  {
    if FirstFree(LaneColors, used).None? {
      AllColorsUsed(used);
    }
  }

  /** A list holding every palette colour holds at least ten colours. */
  lemma AllColorsUsed(used: seq<LaneColor>)
    requires forall i :: 0 <= i < |LaneColors| ==> LaneColors[i] in used
    ensures |used| >= |LaneColors|
  {
    LaneColorsComplete();
    var palette := set c | c in LaneColors;
    assert (set c | c in used) == palette;
    SetOfSeqSize(used);
    DistinctSetSize(LaneColors);
  }

  /** A list without duplicates has as many distinct values as elements. */
  lemma {:induction false} DistinctSetSize<T>(s: seq<T>)
    requires NoDuplicates(s)
    ensures |set x | x in s| == |s|
    decreases |s|
  {
    if s != [] {
      var init := s[..|s| - 1];
      DistinctSetSize(init);
      assert (set x | x in s) == (set x | x in init) + {s[|s| - 1]};
      assert s[|s| - 1] !in init;
    }
  }

  /** Kotlin `lanes.filter { it.id != laneId }`. */
  function WithoutLane(lanes: seq<Lane>, laneId: string): (r: seq<Lane>)
    ensures r == Filter((l: Lane) => l.id != laneId, lanes)
    ensures laneId !in Ids(r)
    ensures forall i :: 0 <= i < |lanes| && lanes[i].id != laneId ==> lanes[i] in r
    ensures AllValid(lanes) ==> AllValid(r)
    ensures NoDuplicates(Ids(lanes)) ==> NoDuplicates(Ids(r))
  {
    var r := Filter((l: Lane) => l.id != laneId, lanes);
    assert AllValid(lanes) ==> AllValid(r) by {
      forall k | 0 <= k < |r| ensures AllValid(lanes) ==> LaneValid(r[k]) {
        var j :| 0 <= j < |lanes| && lanes[j] == r[k];
      }
    }
    assert NoDuplicates(Ids(lanes)) ==> NoDuplicates(Ids(r)) by {
      if NoDuplicates(Ids(lanes)) {
        FilterDistinctIds((l: Lane) => l.id != laneId, lanes);
      }
    }
    r
  }

  /** Filtering a list of lanes with distinct ids leaves the ids distinct. */
  lemma {:induction false} FilterDistinctIds(keep: Lane -> bool, lanes: seq<Lane>)
    requires NoDuplicates(Ids(lanes))
    ensures NoDuplicates(Ids(Filter(keep, lanes)))
    decreases |lanes|
  {
    if lanes != [] {
      var init, last := lanes[..|lanes| - 1], lanes[|lanes| - 1];
      assert NoDuplicates(Ids(init)) by {
        forall i, j | 0 <= i < j < |init| ensures init[i].id != init[j].id {
          assert init[i] == lanes[i] && init[j] == lanes[j];
        }
      }
      FilterDistinctIds(keep, init);
      var f := Filter(keep, init);
      if keep(last) {
        forall k | 0 <= k < |f| ensures f[k].id != last.id {
          var j :| 0 <= j < |init| && init[j] == f[k];
          assert lanes[j] == f[k];
        }
        assert Filter(keep, lanes) == f + [last];
        var g := f + [last];
        forall i, j | 0 <= i < j < |g| ensures g[i].id != g[j].id {
          if j < |f| {
            assert Ids(f)[i] != Ids(f)[j];
          }
        }
      } else {
        assert Filter(keep, lanes) == f + [];
        assert f + [] == f;
      }
    }
  }
}
