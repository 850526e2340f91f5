/**
 * The pure helpers behind the dialogs: the labels of rest presets and of
 * pace markers, the rest dialog's dial, steppers, merged preset list and
 * star button, the countdown stepper, and the plain-text race results that
 * the share dialog builds line by line.
 */
module Dialogs {
  import opened Wrappers
  import opened Arith
  import opened Text
  import opened Seqs
  import opened TimeUtils
  import Engine

  // ---------------------------------------------------------------------------
  // Labels

  /** `formatPresetLabel`: "Ns" below a minute, "Mm" on whole minutes, "M:SS" otherwise. */
  function FormatPresetLabel(seconds: int): string {
    var m := Quot(seconds, 60);
    var s := Rem(seconds, 60);
    if m == 0 then IntToString(s) + "s"
    else if s == 0 then IntToString(m) + "m"
    else IntToString(m) + ":" + Pad2(s)
  }

  /**
   * A preset label reads back as its duration: the seconds alone and an "s"
   * below a minute, the minutes alone and an "m" on whole minutes, and
   * otherwise minutes, ":" and two-digit seconds.
   */
  lemma FormatPresetLabelReadsBack(seconds: int)
    requires seconds >= 0
    ensures var r := FormatPresetLabel(seconds);
      seconds < 60 ==> NonDigits(r) == "s" && Values(r) == [seconds] && Canonical(Runs(r)[0])
    ensures var r := FormatPresetLabel(seconds);
      seconds >= 60 && seconds % 60 == 0 ==>
        NonDigits(r) == "m" && Values(r) == [seconds / 60] && Canonical(Runs(r)[0])
    ensures var r := FormatPresetLabel(seconds);
      var v := Values(r);
      seconds >= 60 && seconds % 60 != 0 ==>
        && NonDigits(r) == ":" && |v| == 2 && Canonical(Runs(r)[0]) && |Runs(r)[1]| == 2
        && v[0] >= 1 && 0 < v[1] < 60 && v[0] * 60 + v[1] == seconds
  {
    NonNegativeAgrees(seconds, 60);
    var m, s := seconds / 60, seconds % 60;
    NumeralField(m);
    NumeralField(s);
    Pad2Field(s);
    if m == 0 {
      UnitReads(IntToString(s), s, "s");
    } else if s == 0 {
      UnitReads(IntToString(m), m, "m");
    } else {
      MinSecReads(IntToString(m), Pad2(s), m, s);
    }
  }

  /** Two different preset durations never share a chip label. */
  lemma PresetLabelsDistinct(a: int, b: int)
    requires a >= 0 && b >= 0 && a != b
    ensures FormatPresetLabel(a) != FormatPresetLabel(b)
  {
    FormatPresetLabelReadsBack(a);
    FormatPresetLabelReadsBack(b);
  }

  /** `formatMarkerTime`: whole minutes, ":" and two-digit seconds, the sub-second part dropped. */
  function FormatMarkerTime(millis: int): string {
    var totalSeconds := Quot(millis, 1000);
    IntToString(Quot(totalSeconds, 60)) + ":" + Pad2(Rem(totalSeconds, 60))
  }

  /**
   * A marker time reads back as minutes and seconds adding up to the whole
   * seconds of the duration; the minutes are not wrapped into hours.
   */
  lemma FormatMarkerTimeReadsBack(millis: int)
    requires millis >= 0
    ensures var r := FormatMarkerTime(millis);
      var v := Values(r);
      && NonDigits(r) == ":" && |v| == 2 && Canonical(Runs(r)[0]) && |Runs(r)[1]| == 2
      && v[0] == millis / 60000 && v[1] < 60 && v[0] * 60 + v[1] == millis / 1000
  {
    NonNegativeAgrees(millis, 1000);
    var ts := millis / 1000;
    NonNegativeAgrees(ts, 60);
    var m, s := ts / 60, ts % 60;
    assert m == millis / 60000;
    NumeralField(m);
    Pad2Field(s);
    MinSecReads(IntToString(m), Pad2(s), m, s);
  }

  // ---------------------------------------------------------------------------
  // The rest dialog

  /** The minutes and seconds the rest dialog shows. */
  datatype RestDial = RestDial(minutes: int, seconds: int) {
    /** `totalSeconds`. */
    function Total(): int { minutes * 60 + seconds }
  }

  /** Setting the dial to a duration, as the dialog opens and as a preset chip is clicked. */
  function DialFor(totalSeconds: int): (d: RestDial)
    ensures d.Total() == totalSeconds
    ensures totalSeconds >= 0 ==> d.minutes >= 0 && 0 <= d.seconds < 60
  {
    RestDial(Quot(totalSeconds, 60), Rem(totalSeconds, 60))
  }

  /** The seconds "+" button: five seconds more, wrapping at the minute. */
  function SecondsUp(s: int): (r: int)
    ensures 0 <= s < 60 ==> 0 <= r < 60 && r % 5 == s % 5
    ensures 0 <= s < 55 ==> r == s + 5
    ensures 55 <= s < 60 ==> r == s + 5 - 60
  {
    Rem(s + 5, 60)
  }

  /** The seconds "-" button: five seconds less, jumping to 55 below five. */
  function SecondsDown(s: int): (r: int)
    ensures 0 <= s < 60 ==> 0 <= r < 60
    ensures 0 <= s < 60 && s % 5 == 0 ==> r % 5 == 0
    ensures s >= 5 ==> r == s - 5
    ensures s < 5 ==> r == 55
  {
    if s >= 5 then s - 5 else 55
  }

  /** On the five-second grid the two seconds buttons undo each other. */
  lemma SecondsStepsUndo(s: int)
    requires 0 <= s < 60 && s % 5 == 0
    ensures SecondsDown(SecondsUp(s)) == s
    ensures SecondsUp(SecondsDown(s)) == s
  {
    NonNegativeAgrees(s + 5, 60);
    if s >= 5 {
      NonNegativeAgrees(s, 60);
    } else {
      NonNegativeAgrees(60, 60);
    }
  }

  /** The minutes "+" button, which stops at 59. */
  function MinutesUp(m: int): (r: int)
    ensures 0 <= m <= 59 ==> 0 <= r <= 59
    ensures r >= m
    ensures m < 59 ==> r == m + 1
    ensures m >= 59 ==> r == m
  {
    if m < 59 then m + 1 else m
  }

  /** The minutes "-" button, which stops at 0. */
  function MinutesDown(m: int): (r: int)
    ensures 0 <= m <= 59 ==> 0 <= r <= 59
    ensures r <= m
    ensures m > 0 ==> r == m - 1
    ensures m <= 0 ==> r == m
  {
    if m > 0 then m - 1 else m
  }

  /** Away from the ends of the range the minutes buttons undo each other. */
  lemma MinutesStepsUndo(m: int)
    ensures 0 <= m < 59 ==> MinutesDown(MinutesUp(m)) == m
    ensures 0 < m <= 59 ==> MinutesUp(MinutesDown(m)) == m
  {
  }

  /** The countdown dialog's "+" button, which stops at 30 seconds. */
  function CountdownUp(c: int): (r: int)
    ensures 1 <= c <= 30 ==> 1 <= r <= 30
    ensures r >= c
    ensures c < 30 ==> r == c + 1
    ensures c >= 30 ==> r == c
  {
    if c < 30 then c + 1 else c
  }

  /** The countdown dialog's "-" button, which stops at 1 second. */
  function CountdownDown(c: int): (r: int)
    ensures 1 <= c <= 30 ==> 1 <= r <= 30
    ensures r <= c
    ensures c > 1 ==> r == c - 1
    ensures c <= 1 ==> r == c
  {
    if c > 1 then c - 1 else c
  }

  /** The rest presets every user has. */
  const DefaultPresets: seq<int> := [30, 60, 90, 120]

  /** `allPresets`: the defaults and the custom presets, without duplicates, in ascending order. */
  function AllPresets(custom: seq<int>): (r: seq<int>)
    ensures StrictlyAscending(r)
    ensures forall x :: x in r <==> x in DefaultPresets || x in custom
  {
    var merged := Distinct(DefaultPresets + custom);
    SortedDistinctIsStrict(merged);
    var r := Sorted(merged);
    assert forall x :: x in r <==> x in merged by {
      forall x ensures x in r <==> x in merged {
        assert x in r <==> x in multiset(r);
      }
    }
    assert forall x :: x in merged <==> x in DefaultPresets + custom by {
      forall x ensures x in merged <==> x in DefaultPresets + custom {
        if x in merged {
          var i :| 0 <= i < |merged| && merged[i] == x;
        }
        if x in DefaultPresets + custom {
          var i :| 0 <= i < |DefaultPresets + custom| && (DefaultPresets + custom)[i] == x;
        }
      }
    }
    r
  }

  /** `canAddPreset`: a positive total that is not yet a preset of either kind. */
  function CanAddPreset(total: int, custom: seq<int>): (b: bool)
    ensures b <==> total > 0 && total !in DefaultPresets && total !in custom
  {
    total > 0 && total !in AllPresets(custom)
  }

  /** What the star button in the title of the rest dialog offers. */
  datatype StarAction = NoStar | SaveStar | RemoveStar

  /** The star: removal for a custom preset, saving for a new total, nothing otherwise. */
  function Star(total: int, custom: seq<int>): (a: StarAction)
    ensures a == RemoveStar <==> total in custom
    ensures a == SaveStar <==> total > 0 && total !in DefaultPresets && total !in custom
  {
    if CanAddPreset(total, custom) || total in custom then
      if total in custom then RemoveStar else SaveStar
    else NoStar
  }

  /**
   * Pressing the star toggles the total in the custom presets: saving
   * makes it a custom preset that the next press removes, which gives the
   * list back unchanged; removing takes it out again.
   */
  lemma StarToggles(custom: seq<int>, total: int)
    requires Engine.RestPresetsValid(custom)
    ensures var saved := Engine.WithRestPreset(custom, total);
      Star(total, custom) == SaveStar ==>
        && total in saved && Star(total, saved) == RemoveStar
        && Engine.WithoutRestPreset(saved, total) == custom
    ensures var removed := Engine.WithoutRestPreset(custom, total);
      Star(total, custom) == RemoveStar ==>
        && total !in removed
        && Star(total, removed) == (if total in DefaultPresets then NoStar else SaveStar)
  {
    if Star(total, custom) == SaveStar {
      Engine.RestPresetAddRemove(custom, total);
    }
    if Star(total, custom) == RemoveStar {
      assert total > 0;
    }
  }

  // ---------------------------------------------------------------------------
  // Race results as text

  datatype ShareableLap = ShareableLap(number: int, duration: string)

  datatype ShareableLane = ShareableLane(
    id: string,
    name: string,
    totalTime: int,
    timeFormatted: string,
    lapCount: int,
    laps: seq<ShareableLap>,
    averageLap: string,
    bestLap: Option<string>)

  const Title: string := "Race Results"

  /** The two characters the separator line repeats (U+00E2 and U+2022, as stored in the source). */
  const SeparatorUnit: string := "\U{E2}\U{2022}"

  /** Kotlin `s.repeat(n)`. */
  function Repeated(s: string, n: nat): (r: string)
    ensures |r| == n * |s|
  {
    if n == 0 then [] else s + Repeated(s, n - 1)
  }

  /** The separator under the title. */
  const Separator: string := Repeated(SeparatorUnit, 30)

  /** Repeating two characters alternates them. */
  lemma {:induction false} RepeatedPair(a: char, b: char, n: nat)
    ensures |Repeated([a, b], n)| == 2 * n
    ensures forall i :: 0 <= i < 2 * n ==> Repeated([a, b], n)[i] == if i % 2 == 0 then a else b
  {
    if n > 0 {
      RepeatedPair(a, b, n - 1);
      var rest := Repeated([a, b], n - 1);
      var r := Repeated([a, b], n);
      assert r == [a, b] + rest;
      forall i | 0 <= i < 2 * n ensures r[i] == if i % 2 == 0 then a else b {
        if i >= 2 {
          assert r[i] == rest[i - 2];
          assert (i - 2) % 2 == i % 2;
        }
      }
    }
  }

  /** The separator is 60 characters wide, alternating its two characters. */
  lemma SeparatorShape()
    ensures |Separator| == 60
    ensures forall i :: 0 <= i < 60 ==> Separator[i] == if i % 2 == 0 then '\U{E2}' else '\U{2022}'
  {
    RepeatedPair('\U{E2}', '\U{2022}', 30);
    assert SeparatorUnit == ['\U{E2}', '\U{2022}'];
  }

  /** The lines before the first lane. */
  const Header: seq<string> := [Title, Separator, ""]

  /** One entry of the lap-time list. */
  function LapLine(lap: ShareableLap): string {
    "    " + IntToString(lap.number) + ". " + lap.duration
  }

  /** The lap-time list, one entry per lap, in order. */
  function LapLines(laps: seq<ShareableLap>): (r: seq<string>)
    ensures |r| == |laps| && forall k :: 0 <= k < |laps| ==> r[k] == LapLine(laps[k])
  {
    MapTo(LapLine, laps, |laps|)
  }

  /** The best lap, when there is one. */
  function BestLines(lane: ShareableLane): seq<string> {
    match lane.bestLap
    case None => []
    case Some(best) => ["  Best: " + best]
  }

  /** Lap count, average and (when known) best lap. */
  function StatsLines(lane: ShareableLane): seq<string> {
    ["  Laps: " + IntToString(lane.lapCount), "  Average: " + lane.averageLap] + BestLines(lane)
  }

  /** The lap-time list is shown for a lane that has laps, when asked for. */
  predicate ListsLaps(lane: ShareableLane, includeLapTimes: bool) {
    lane.lapCount > 0 && includeLapTimes && |lane.laps| > 0
  }

  /** A blank line, a heading and the lap-time list, when it is shown. */
  function LapSection(lane: ShareableLane, includeLapTimes: bool): seq<string> {
    if ListsLaps(lane, includeLapTimes) then ["", "  Lap Times:"] + LapLines(lane.laps) else []
  }

  /** The block of lines for one lane. */
  function LaneLines(lane: ShareableLane, includeLapTimes: bool): seq<string> {
    [lane.name, "  Time: " + lane.timeFormatted]
      + if lane.lapCount > 0 then StatsLines(lane) + LapSection(lane, includeLapTimes) else []
  }

  /** Lane `k`'s block, followed by a blank line unless it is the last lane. */
  function BlockLines(lanes: seq<ShareableLane>, includeLapTimes: bool, k: nat): seq<string>
    requires k < |lanes|
  {
    LaneLines(lanes[k], includeLapTimes) + if k < |lanes| - 1 then [""] else []
  }

  /** The blocks of the first `i` lanes. */
  function BodyLines(lanes: seq<ShareableLane>, includeLapTimes: bool, i: nat): seq<string>
    requires i <= |lanes|
  {
    if i == 0 then [] else BodyLines(lanes, includeLapTimes, i - 1) + BlockLines(lanes, includeLapTimes, i - 1)
  }

  /** All lines of the results. */
  function ResultLines(lanes: seq<ShareableLane>, includeLapTimes: bool): seq<string> {
    Header + BodyLines(lanes, includeLapTimes, |lanes|)
  }

  /** Lines as a builder holds them after `appendLine` of each: every line ends in a newline. */
  function Joined(lines: seq<string>): string {
    if lines == [] then "" else Joined(lines[..|lines| - 1]) + lines[|lines| - 1] + "\n"
  }

  /** The text `generateResults` returns. */
  function ResultsText(lanes: seq<ShareableLane>, includeLapTimes: bool): string {
    Joined(ResultLines(lanes, includeLapTimes))
  }

  /** `appendLine` on the builder: the text grows by exactly one line. */
  method AppendLine(text: string, ghost lines: seq<string>, line: string) returns (text': string, ghost lines': seq<string>)
    requires text == Joined(lines)
    ensures lines' == lines + [line] && text' == Joined(lines')
    ensures text' == text + line + "\n"
  {
    text' := text + line + "\n";
    lines' := lines + [line];
    assert lines'[..|lines|] == lines;
  }

  /** The lap-time list of one lane, appended lap by lap. */
  method AppendLapTimes(text: string, ghost lines: seq<string>, laps: seq<ShareableLap>)
    returns (text': string, ghost lines': seq<string>)
    requires text == Joined(lines)
    ensures text' == Joined(lines + LapLines(laps))
    ensures lines' == lines + LapLines(laps)
  {
    text', lines' := text, lines;
    for j := 0 to |laps|
      invariant text' == Joined(lines')
      invariant lines' == lines + MapTo(LapLine, laps, j)
    {
      text', lines' := AppendLine(text', lines', LapLine(laps[j]));
      Associative(lines, MapTo(LapLine, laps, j), [LapLine(laps[j])]);
    }
  }

  /** The lap count, the average and (when known) the best lap of a lane. */
  method AppendStats(text: string, ghost lines: seq<string>, lane: ShareableLane)
    returns (text': string, ghost lines': seq<string>)
    requires text == Joined(lines)
    ensures text' == Joined(lines + StatsLines(lane))
    ensures lines' == lines + StatsLines(lane)
  {
    text', lines' := AppendLine(text, lines, "  Laps: " + IntToString(lane.lapCount));
    text', lines' := AppendLine(text', lines', "  Average: " + lane.averageLap);
    ghost var counted := lines';
    match lane.bestLap {
      case None =>
        assert lines' == counted + [];
      case Some(best) =>
        text', lines' := AppendLine(text', lines', "  Best: " + best);
    }
    Associative(lines, ["  Laps: " + IntToString(lane.lapCount), "  Average: " + lane.averageLap], BestLines(lane));
  }

  /** The lap-time section of a lane, when it is shown. */
  method AppendLapSection(text: string, ghost lines: seq<string>, lane: ShareableLane, includeLapTimes: bool)
    returns (text': string, ghost lines': seq<string>)
    requires text == Joined(lines) && lane.lapCount > 0
    ensures text' == Joined(lines + LapSection(lane, includeLapTimes))
    ensures lines' == lines + LapSection(lane, includeLapTimes)
  {
    text', lines' := text, lines;
    if includeLapTimes && |lane.laps| > 0 {
      text', lines' := AppendLine(text', lines', "");
      text', lines' := AppendLine(text', lines', "  Lap Times:");
      ghost var heading := lines';
      assert heading == lines + ["", "  Lap Times:"];
      text', lines' := AppendLapTimes(text', lines', lane.laps);
      Associative(lines, ["", "  Lap Times:"], LapLines(lane.laps));
    } else {
      assert lines' == lines + [];
    }
  }

  /** The block of one lane, as the body of the loop over the lanes appends it. */
  method AppendLane(text: string, ghost lines: seq<string>, lane: ShareableLane, includeLapTimes: bool)
    returns (text': string, ghost lines': seq<string>)
    requires text == Joined(lines)
    ensures text' == Joined(lines + LaneLines(lane, includeLapTimes))
    ensures lines' == lines + LaneLines(lane, includeLapTimes)
  {
    text', lines' := AppendLine(text, lines, lane.name);
    text', lines' := AppendLine(text', lines', "  Time: " + lane.timeFormatted);
    ghost var head := lines';
    assert head == lines + [lane.name, "  Time: " + lane.timeFormatted];
    if lane.lapCount > 0 {
      text', lines' := AppendStats(text', lines', lane);
      text', lines' := AppendLapSection(text', lines', lane, includeLapTimes);
      Associative(head, StatsLines(lane), LapSection(lane, includeLapTimes));
      Associative(lines, [lane.name, "  Time: " + lane.timeFormatted], StatsLines(lane) + LapSection(lane, includeLapTimes));
    } else {
      assert lines' == lines + [lane.name, "  Time: " + lane.timeFormatted] + [];
    }
    assert lines' == lines + LaneLines(lane, includeLapTimes);
  }

  /** `generateResults`: the title, the separator, a blank line, then one block per lane. */
  method GenerateResults(lanes: seq<ShareableLane>, includeLapTimes: bool) returns (text: string)
    ensures text == ResultsText(lanes, includeLapTimes)
  {
    ghost var lines: seq<string> := [];
    text := "";
    text, lines := AppendLine(text, lines, Title);
    text, lines := AppendLine(text, lines, Separator);
    text, lines := AppendLine(text, lines, "");
    for i := 0 to |lanes|
      invariant text == Joined(lines)
      invariant lines == Header + BodyLines(lanes, includeLapTimes, i)
    {
      ghost var before := lines;
      text, lines := AppendLane(text, lines, lanes[i], includeLapTimes);
      if i < |lanes| - 1 {
        text, lines := AppendLine(text, lines, "");
      } else {
        assert lines == lines + [];
      }
      Associative(before, LaneLines(lanes[i], includeLapTimes), if i < |lanes| - 1 then [""] else []);
      Associative(Header, BodyLines(lanes, includeLapTimes, i), BlockLines(lanes, includeLapTimes, i));
    }
  }

  /** The lap-count, average and best-lap lines, and how many there are. */
  lemma StatsShape(lane: ShareableLane)
    ensures var st := StatsLines(lane);
      && |st| == 2 + (if lane.bestLap.Some? then 1 else 0)
      && st[0] == "  Laps: " + IntToString(lane.lapCount) && st[1] == "  Average: " + lane.averageLap
      && (lane.bestLap.Some? ==> st[2] == "  Best: " + lane.bestLap.value)
  {
  }

  /**
   * The block of one lane: its name and time; the lap count, the average
   * and (when there is one) the best lap only for a lane with laps; then,
   * when lap times are asked for and there are laps, a blank line, a
   * heading and the laps in order. Its last line is never blank.
   */
  lemma LaneLinesShape(lane: ShareableLane, includeLapTimes: bool)
    ensures var r := LaneLines(lane, includeLapTimes);
      |r| >= 2 && r[0] == lane.name && r[1] == "  Time: " + lane.timeFormatted
    ensures var r := LaneLines(lane, includeLapTimes);
      lane.lapCount <= 0 ==> |r| == 2
    ensures var r := LaneLines(lane, includeLapTimes);
      lane.lapCount > 0 ==>
        && r[2..4 + (if lane.bestLap.Some? then 1 else 0)] == StatsLines(lane)
        && r[4 + (if lane.bestLap.Some? then 1 else 0)..] == LapSection(lane, includeLapTimes)
    ensures var r := LaneLines(lane, includeLapTimes);
      r[|r| - 1] != []
  {
    var r := LaneLines(lane, includeLapTimes);
    var head := [lane.name, "  Time: " + lane.timeFormatted];
    if lane.lapCount > 0 {
      var stats := StatsLines(lane);
      var section := LapSection(lane, includeLapTimes);
      StatsShape(lane);
      assert r == head + stats + section;
      assert r[2..2 + |stats|] == stats;
      assert r[2 + |stats|..] == section;
      if ListsLaps(lane, includeLapTimes) {
        assert r[|r| - 1] == section[|section| - 1] == LapLine(lane.laps[|lane.laps| - 1]);
      } else {
        assert r[|r| - 1] == stats[|stats| - 1];
      }
    } else {
      assert r == head;
    }
  }

  /** The lap-time section: a blank line, the heading, then each lap in order. */
  lemma LapSectionShape(lane: ShareableLane, includeLapTimes: bool)
    ensures var t := LapSection(lane, includeLapTimes);
      ListsLaps(lane, includeLapTimes) ==>
        && |t| == 2 + |lane.laps| && t[0] == "" && t[1] == "  Lap Times:"
        && forall k :: 0 <= k < |lane.laps| ==> t[2 + k] == "    " + IntToString(lane.laps[k].number) + ". " + lane.laps[k].duration
    ensures !ListsLaps(lane, includeLapTimes) ==> LapSection(lane, includeLapTimes) == []
  {
  }

  /** Where the block of lane `i` starts among the result lines. */
  function BlockStart(lanes: seq<ShareableLane>, includeLapTimes: bool, i: nat): nat
    requires i <= |lanes|
  {
    |Header| + |BodyLines(lanes, includeLapTimes, i)|
  }

  /** The blocks of the first lanes begin the blocks of all of them. */
  lemma {:induction false} BodyPrefix(lanes: seq<ShareableLane>, includeLapTimes: bool, i: nat, n: nat)
    requires i <= n <= |lanes|
    ensures BodyLines(lanes, includeLapTimes, i) <= BodyLines(lanes, includeLapTimes, n)
    decreases n - i
  {
    if i < n {
      BodyPrefix(lanes, includeLapTimes, i + 1, n);
    }
  }

  /** The result lines up to the end of lane `i`'s block (and its blank line) are a prefix of all of them. */
  lemma BlockPrefix(lanes: seq<ShareableLane>, includeLapTimes: bool, i: nat)
    requires i < |lanes|
    ensures Header + BodyLines(lanes, includeLapTimes, i) + BlockLines(lanes, includeLapTimes, i)
      <= ResultLines(lanes, includeLapTimes)
  {
    BodyPrefix(lanes, includeLapTimes, i + 1, |lanes|);
    PrefixConcat(Header, BodyLines(lanes, includeLapTimes, i + 1), BodyLines(lanes, includeLapTimes, |lanes|));
    Associative(Header, BodyLines(lanes, includeLapTimes, i), BlockLines(lanes, includeLapTimes, i));
  }

  /** Lane `i`'s block sits at its place among the result lines. */
  lemma BlockAt(lanes: seq<ShareableLane>, includeLapTimes: bool, i: nat)
    requires i < |lanes|
    ensures var r := ResultLines(lanes, includeLapTimes);
      var start := BlockStart(lanes, includeLapTimes, i);
      var end := start + |LaneLines(lanes[i], includeLapTimes)|;
      end <= |r| && r[start..end] == LaneLines(lanes[i], includeLapTimes)
  {
    var p := Header + BodyLines(lanes, includeLapTimes, i);
    var block := LaneLines(lanes[i], includeLapTimes);
    var sep: seq<string> := if i < |lanes| - 1 then [""] else [];
    BlockPrefix(lanes, includeLapTimes, i);
    assert BlockLines(lanes, includeLapTimes, i) == block + sep;
    Associative(p, block, sep);
    MiddleOfPrefix(p, block, sep, ResultLines(lanes, includeLapTimes));
  }

  /** Before the last lane, a block is followed by one blank line and then the next block. */
  lemma BlankAfterBlock(lanes: seq<ShareableLane>, includeLapTimes: bool, i: nat)
    requires i < |lanes| - 1
    ensures var r := ResultLines(lanes, includeLapTimes);
      var end := BlockStart(lanes, includeLapTimes, i) + |LaneLines(lanes[i], includeLapTimes)|;
      end < |r| && r[end] == "" && BlockStart(lanes, includeLapTimes, i + 1) == end + 1
  {
    var p := Header + BodyLines(lanes, includeLapTimes, i);
    var block := LaneLines(lanes[i], includeLapTimes);
    var q := p + BlockLines(lanes, includeLapTimes, i);
    BlockPrefix(lanes, includeLapTimes, i);
    assert q == p + (block + [""]);
    assert q[|p| + |block|] == "";
  }

  /** The last lane's block ends the results, so the text closes on a line that is not blank. */
  lemma LastBlockEnds(lanes: seq<ShareableLane>, includeLapTimes: bool)
    requires lanes != []
    ensures var r := ResultLines(lanes, includeLapTimes);
      var i := |lanes| - 1;
      && BlockStart(lanes, includeLapTimes, i) + |LaneLines(lanes[i], includeLapTimes)| == |r|
      && r[|r| - 1] != []
  {
    var i := |lanes| - 1;
    var body := BodyLines(lanes, includeLapTimes, i);
    var block := LaneLines(lanes[i], includeLapTimes);
    LaneLinesShape(lanes[i], includeLapTimes);
    assert BlockLines(lanes, includeLapTimes, i) == block + [];
    Associative(Header, body, block);
    var r := ResultLines(lanes, includeLapTimes);
    assert r == (Header + body) + block;
    assert r[|r| - 1] == block[|block| - 1];
  }

  /**
   * The results list the lanes in input order: lane `i`'s block sits at
   * its place in the result lines; before the last lane it is followed by
   * exactly one blank line and then the next block; the last lane's
   * block ends the results, whose last line is then not blank.
   */
  lemma ResultsLayout(lanes: seq<ShareableLane>, includeLapTimes: bool, i: nat)
    requires i < |lanes|
    ensures var r := ResultLines(lanes, includeLapTimes);
      var start := BlockStart(lanes, includeLapTimes, i);
      var end := start + |LaneLines(lanes[i], includeLapTimes)|;
      && end <= |r| && r[start..end] == LaneLines(lanes[i], includeLapTimes)
      && (i < |lanes| - 1 ==> end < |r| && r[end] == "" && BlockStart(lanes, includeLapTimes, i + 1) == end + 1)
      && (i == |lanes| - 1 ==> end == |r| && r[|r| - 1] != [])
  {
    BlockAt(lanes, includeLapTimes, i);
    if i < |lanes| - 1 {
      BlankAfterBlock(lanes, includeLapTimes, i);
    } else {
      LastBlockEnds(lanes, includeLapTimes);
    }
  }

  /** The results open with the title, the separator and a blank line; with no lanes that is all. */
  lemma ResultsHeader(lanes: seq<ShareableLane>, includeLapTimes: bool)
    ensures var r := ResultLines(lanes, includeLapTimes);
      |r| >= 3 && r[0] == "Race Results" && r[1] == Separator && r[2] == ""
    ensures lanes == [] ==> ResultLines(lanes, includeLapTimes) == [Title, Separator, ""]
  {
  }

  // ---------------------------------------------------------------------------
  // Reading the text back as lines

  /** The index of the first newline at or after `i`, or the length when there is none. */
  function LineEnd(s: string, i: nat): (k: nat)
    requires i <= |s|
    ensures i <= k <= |s| && (k < |s| ==> s[k] == '\n')
    ensures forall j :: i <= j < k ==> s[j] != '\n'
    decreases |s| - i
  {
    if i == |s| || s[i] == '\n' then i else LineEnd(s, i + 1)
  }

  /** The lines of a text, each without its newline (Kotlin's `lines()` less a trailing empty line). */
  function SplitLines(s: string): seq<string>
    decreases |s|
  {
    if s == [] then []
    else
      var k := LineEnd(s, 0);
      if k == |s| then [s] else [s[..k]] + SplitLines(s[k + 1..])
  }

  /** `s` holds no newline. */
  predicate OneLine(s: string) {
    forall j :: 0 <= j < |s| ==> s[j] != '\n'
  }

  /** All of `lines` are single lines. */
  predicate AllOneLine(lines: seq<string>) {
    forall k :: 0 <= k < |lines| ==> OneLine(lines[k])
  }

  lemma AllOneLineAppend(a: seq<string>, b: seq<string>)
    requires AllOneLine(a) && AllOneLine(b)
    ensures AllOneLine(a + b)
  {
    forall k | 0 <= k < |a + b| ensures OneLine((a + b)[k]) {
      if k < |a| {
        assert (a + b)[k] == a[k];
      } else {
        assert (a + b)[k] == b[k - |a|];
      }
    }
  }

  lemma ConcatOneLine(a: string, b: string)
    requires OneLine(a) && OneLine(b)
    ensures OneLine(a + b)
  {
    forall j | 0 <= j < |a + b| ensures (a + b)[j] != '\n' {
      if j >= |a| {
        assert (a + b)[j] == b[j - |a|];
      }
    }
  }

  /** Joining a first line to the rest. */
  lemma {:induction false} JoinedCons(line: string, lines: seq<string>)
    ensures Joined([line] + lines) == line + "\n" + Joined(lines)
    decreases |lines|
  {
    if lines != [] {
      var init := lines[..|lines| - 1];
      assert ([line] + lines)[..|lines|] == [line] + init;
      JoinedCons(line, init);
    } else {
      assert ([line] + lines)[..0] == [];
    }
  }

  /** Splitting joined lines gives them back, when no line holds a newline of its own. */
  lemma {:induction false} SplitJoined(lines: seq<string>)
    requires AllOneLine(lines)
    ensures SplitLines(Joined(lines)) == lines
    decreases |lines|
  {
    if lines != [] {
      var line, rest := lines[0], lines[1..];
      assert lines == [line] + rest;
      JoinedCons(line, rest);
      var s := Joined(lines);
      assert s == line + ("\n" + Joined(rest));
      assert OneLine(line);
      forall j | 0 <= j < |line| ensures s[j] != '\n' {
        assert s[j] == line[j];
      }
      assert s[|line|] == '\n';
      assert LineEnd(s, 0) == |line|;
      assert s[..|line|] == line;
      assert s[|line| + 1..] == Joined(rest);
      assert AllOneLine(rest) by {
        forall k | 0 <= k < |rest| ensures OneLine(rest[k]) {
          assert rest[k] == lines[k + 1];
        }
      }
      SplitJoined(rest);
    }
  }

  /** A decimal numeral is on one line. */
  lemma NumeralOneLine(n: int)
    ensures OneLine(IntToString(n))
  {
    var d := IntToString(n);
    forall j | 0 <= j < |d| ensures d[j] != '\n' {
      if n >= 0 {
        assert IsDigit(d[j]);
      } else if j > 0 {
        assert d == "-" + Decimal(-n);
        assert d[j] == Decimal(-n)[j - 1];
        assert IsDigit(Decimal(-n)[j - 1]);
      }
    }
  }

  /** The text fields of a lane hold no newline. */
  predicate LaneOneLine(lane: ShareableLane) {
    && OneLine(lane.name) && OneLine(lane.timeFormatted) && OneLine(lane.averageLap)
    && (lane.bestLap.Some? ==> OneLine(lane.bestLap.value))
    && forall k :: 0 <= k < |lane.laps| ==> OneLine(lane.laps[k].duration)
  }

  /** An entry of the lap-time list holds no newline when the lap's duration holds none. */
  lemma LapLineOneLine(lap: ShareableLap)
    requires OneLine(lap.duration)
    ensures OneLine(LapLine(lap))
  {
    NumeralOneLine(lap.number);
    ConcatOneLine("    ", IntToString(lap.number));
    ConcatOneLine("    " + IntToString(lap.number), ". ");
    ConcatOneLine("    " + IntToString(lap.number) + ". ", lap.duration);
  }

  /** The lap count, average and best lap lines hold no newline. */
  lemma StatsOneLine(lane: ShareableLane)
    requires LaneOneLine(lane)
    ensures AllOneLine(StatsLines(lane))
  {
    NumeralOneLine(lane.lapCount);
    ConcatOneLine("  Laps: ", IntToString(lane.lapCount));
    ConcatOneLine("  Average: ", lane.averageLap);
    if lane.bestLap.Some? {
      ConcatOneLine("  Best: ", lane.bestLap.value);
    }
    StatsShape(lane);
  }

  /** The lap section holds no line with a newline in it. */
  lemma LapSectionOneLine(lane: ShareableLane, includeLapTimes: bool)
    requires LaneOneLine(lane)
    ensures AllOneLine(LapSection(lane, includeLapTimes))
  {
    if ListsLaps(lane, includeLapTimes) {
      var laps := LapLines(lane.laps);
      forall k | 0 <= k < |lane.laps| ensures OneLine(laps[k]) {
        LapLineOneLine(lane.laps[k]);
      }
      assert AllOneLine(["", "  Lap Times:"]);
      AllOneLineAppend(["", "  Lap Times:"], laps);
    }
  }

  lemma LaneLinesOneLine(lane: ShareableLane, includeLapTimes: bool)
    requires LaneOneLine(lane)
    ensures AllOneLine(LaneLines(lane, includeLapTimes))
  {
    var head := [lane.name, "  Time: " + lane.timeFormatted];
    ConcatOneLine("  Time: ", lane.timeFormatted);
    assert AllOneLine(head);
    if lane.lapCount > 0 {
      StatsOneLine(lane);
      LapSectionOneLine(lane, includeLapTimes);
      AllOneLineAppend(StatsLines(lane), LapSection(lane, includeLapTimes));
      AllOneLineAppend(head, StatsLines(lane) + LapSection(lane, includeLapTimes));
    } else {
      assert LaneLines(lane, includeLapTimes) == head;
    }
  }

  lemma {:induction false} BodyOneLine(lanes: seq<ShareableLane>, includeLapTimes: bool, i: nat)
    requires i <= |lanes|
    requires forall k :: 0 <= k < |lanes| ==> LaneOneLine(lanes[k])
    ensures AllOneLine(BodyLines(lanes, includeLapTimes, i))
  {
    if i > 0 {
      BodyOneLine(lanes, includeLapTimes, i - 1);
      LaneLinesOneLine(lanes[i - 1], includeLapTimes);
      var sep: seq<string> := if i - 1 < |lanes| - 1 then [""] else [];
      assert AllOneLine(sep);
      AllOneLineAppend(LaneLines(lanes[i - 1], includeLapTimes), sep);
      AllOneLineAppend(BodyLines(lanes, includeLapTimes, i - 1), BlockLines(lanes, includeLapTimes, i - 1));
    }
  }

  /**
   * Read back line by line, the results text gives exactly the result
   * lines, provided no lane's text fields hold a newline.
   */
  lemma ResultsReadBack(lanes: seq<ShareableLane>, includeLapTimes: bool)
    requires forall k :: 0 <= k < |lanes| ==> LaneOneLine(lanes[k])
    ensures SplitLines(ResultsText(lanes, includeLapTimes)) == ResultLines(lanes, includeLapTimes)
  {
    SeparatorShape();
    assert AllOneLine(Header);
    BodyOneLine(lanes, includeLapTimes, |lanes|);
    AllOneLineAppend(Header, BodyLines(lanes, includeLapTimes, |lanes|));
    SplitJoined(ResultLines(lanes, includeLapTimes));
  }
}
