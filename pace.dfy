/**
 * `PaceMarker.getSplits`: the even-pace split table of a pace marker. One
 * row per whole split interval strictly inside the event, then one final
 * row for the event itself at the target time.
 */
module Pace {
  import opened Wrappers
  import opened Arith
  import opened Text
  import opened Models

  /** `interval.displayName.replace("m", "").toIntOrNull()`. */
  function MeterValue(interval: SplitInterval): Option<int> {
    ToIntOrNull(RemoveChar(interval.DisplayName(), 'm'))
  }

  /** `formatSplitLabel`: the count for miles and kilometres, the distance run in brackets for metre intervals. */
  function FormatSplitLabel(interval: SplitInterval, count: int): string {
    match interval
    case Mile => IntToString(count)
    case Km => IntToString(count)
    case _ =>
      match MeterValue(interval)
      case Some(v) => "(" + IntToString(v * count) + ")"
      case None => "(" + interval.DisplayName() + ")"
  }

  /** The metre intervals' names parse back to their distances. */
  lemma MeterValues()
    ensures MeterValue(SplitM100) == Some(100)
    ensures MeterValue(SplitM200) == Some(200)
    ensures MeterValue(SplitM400) == Some(400)
  {
    HundredsName('1');
    HundredsName('2');
    HundredsName('4');
  }

  /** "<c>00m" parses back to `c` hundreds. */
  lemma HundredsName(c: char)
    requires '1' <= c <= '9'
    ensures ToIntOrNull(RemoveChar([c, '0', '0', 'm'], 'm')) == Some(DigitValue(c) * 100)
  {
    HundredsValue(c);
    NumberWithUnit([c, '0', '0']);
    assert [c, '0', '0'] + "m" == [c, '0', '0', 'm'];
  }

  /** Removing the unit letter from "<digits>m" and parsing gives the number. */
  lemma NumberWithUnit(d: string)
    requires |d| > 0 && AllDigits(d) && ValueOf(d) <= IntMax
    ensures ToIntOrNull(RemoveChar(d + "m", 'm')) == Some(ValueOf(d))
  {
    var s := d + "m";
    assert s[..|s| - 1] == d && s[|s| - 1] == 'm';
    assert RemoveChar(s, 'm') == RemoveChar(d, 'm') + [];
    RemoveCharRemoves(d, 'm');
    assert forall i :: 0 <= i < |d| ==> d[i] != 'm';
    assert RemoveChar(d, 'm') == d;
    assert d + [] == d;
    assert RemoveChar(s, 'm') == d;
    ToIntOrNullDigits(d);
  }

  lemma HundredsValue(c: char)
    requires '1' <= c <= '9'
    ensures ValueOf([c, '0', '0']) == DigitValue(c) * 100
  {
    assert [c][..0] == [];
    assert ValueOf([c]) == DigitValue(c);
    assert [c, '0'][..1] == [c];
    assert ValueOf([c, '0']) == DigitValue(c) * 10;
    assert [c, '0', '0'][..2] == [c, '0'];
  }

  /**
   * A split label reads back as its count: for miles and kilometres the
   * label is the count itself; for metre intervals it is the distance run
   * so far, in brackets.
   */
  lemma SplitLabelReads(interval: SplitInterval, count: int)
    requires count >= 0
    ensures var r := FormatSplitLabel(interval, count);
      (interval == Mile || interval == Km) ==> Canonical(r) && ValueOf(r) == count
    ensures var r := FormatSplitLabel(interval, count);
      var d := interval.DistanceMeters() * count;
      !(interval == Mile || interval == Km) ==>
        NonDigits(r) == "()" && Runs(r) == [IntToString(d)] && Values(r) == [d]
  {
    if !(interval == Mile || interval == Km) {
      MeterValues();
      var d := interval.DistanceMeters() * count;
      assert d >= 0;
      NumeralIsField(d);
      Field("(", IntToString(d), ")");
      assert Runs("(") == [] && NonDigits("(") == "(" by {
        assert NonDigitsTo("(", 0) == [];
      }
      assert "(" + ")" == "()";
    }
  }

  /**
   * The time at which an even pace reaches `distance`: the target time
   * scaled by the fraction of the event covered, truncated toward zero.
   */
  function SplitTime(m: PaceMarker, distance: int): int {
    Quot(distance * m.targetTime, m.event.DistanceMeters())
  }

  /** The row for the `k`-th whole split interval. */
  function SplitAt(m: PaceMarker, k: int): PaceSplit {
    var distance := k * m.splitInterval.DistanceMeters();
    PaceSplit(FormatSplitLabel(m.splitInterval, k), distance, SplitTime(m, distance), false)
  }

  /** The row for the event itself. */
  function FinalSplit(m: PaceMarker): PaceSplit {
    PaceSplit(m.event.DisplayName(), m.event.DistanceMeters(), m.targetTime, true)
  }

  /** The pass numbers among `1..n` whose distance `k * d` lies strictly inside `total`. */
  function Passes(n: nat, d: int, total: int): seq<nat> {
    if n == 0 then []
    else Passes(n - 1, d, total) + (if n * d < total then [n] else [])
  }

  /** One intermediate row per pass number. */
  function Rows(m: PaceMarker, ks: seq<nat>): (r: seq<PaceSplit>)
    ensures |r| == |ks|
  {
    seq(|ks|, i requires 0 <= i < |ks| => SplitAt(m, ks[i]))
  }

  /** The rows the first `n` passes of the loop add: those strictly inside the event. */
  function Intermediate(m: PaceMarker, n: nat): seq<PaceSplit> {
    Rows(m, Passes(n, m.splitInterval.DistanceMeters(), m.event.DistanceMeters()))
  }

  /** The split table `getSplits` returns. */
  function Splits(m: PaceMarker): seq<PaceSplit> {
    Intermediate(m, m.event.DistanceMeters() / m.splitInterval.DistanceMeters()) + [FinalSplit(m)]
  }

  /** `getSplits`: one pass per whole split interval, then the final row. */
  method GetSplits(m: PaceMarker) returns (splits: seq<PaceSplit>)
    ensures splits == Splits(m)
  {
    var totalDistance := m.event.DistanceMeters();
    var splitDistance := m.splitInterval.DistanceMeters();
    var numFullSplits := totalDistance / splitDistance;
    splits := [];
    var accumulatedDistance := 0;
    for i := 1 to numFullSplits + 1
      invariant accumulatedDistance == (i - 1) * splitDistance
      invariant splits == Rows(m, Passes(i - 1, splitDistance, totalDistance))
    {
      accumulatedDistance := accumulatedDistance + splitDistance;
      var splitTime := SplitTime(m, accumulatedDistance);
      if accumulatedDistance < totalDistance {
        RowsAppend(m, Passes(i - 1, splitDistance, totalDistance), i);
        splits := splits + [PaceSplit(FormatSplitLabel(m.splitInterval, i), accumulatedDistance, splitTime, false)];
      }
    }
    splits := splits + [PaceSplit(m.event.DisplayName(), totalDistance, m.targetTime, true)];
  }

  lemma RowsAppend(m: PaceMarker, ks: seq<nat>, k: nat)
    ensures Rows(m, ks + [k]) == Rows(m, ks) + [SplitAt(m, k)]
  {
  }

  /** Below the event distance, every pass so far is a row, numbered in order. */
  lemma {:induction false} PassesNumbered(n: nat, d: int, total: int)
    requires d > 0 && total > 0 && (n - 1) * d < total
    ensures |Passes(n, d, total)| == (if n * d < total then n else n - 1)
    ensures forall i :: 0 <= i < |Passes(n, d, total)| ==> Passes(n, d, total)[i] == i + 1
  {
    if n > 0 {
      assert (n - 2) * d < (n - 1) * d;
      PassesNumbered(n - 1, d, total);
      var prev := Passes(n - 1, d, total);
      assert |prev| == n - 1;
      if n * d < total {
        assert Passes(n, d, total) == prev + [n];
      } else {
        assert Passes(n, d, total) == prev;
      }
    }
  }

  /**
   * The shape of the split table: every row but the last is an
   * intermediate row at the next whole multiple of the split interval,
   * strictly inside the event and timed at an even pace; there is one
   * such row for every multiple inside the event and no more; the last row
   * is the event itself at the target time.
   */
  lemma SplitsShape(m: PaceMarker)
    ensures var r, d, total := Splits(m), m.splitInterval.DistanceMeters(), m.event.DistanceMeters();
      && |r| >= 1
      && r[|r| - 1] == PaceSplit(m.event.DisplayName(), total, m.targetTime, true)
      && (forall i :: 0 <= i < |r| - 1 ==>
            && !r[i].isFinal
            && 0 < r[i].distance == (i + 1) * d < total
            && r[i].time == SplitTime(m, r[i].distance))
      && |r| * d >= total
  {
    var d, total := m.splitInterval.DistanceMeters(), m.event.DistanceMeters();
    var n := total / d;
    assert n * d <= total < (n + 1) * d;
    assert (n - 1) * d < total;
    PassesNumbered(n, d, total);
    var r := Splits(m);
    forall i | 0 <= i < |r| - 1 ensures 0 < r[i].distance {
      MulPositive(i + 1, d);
    }
  }

  lemma MulPositive(a: int, b: int)
    requires a > 0 && b > 0
    ensures a * b > 0
  {
  }

  /** Every intermediate row is labelled with its count of split intervals. */
  lemma SplitLabels(m: PaceMarker)
    ensures var r := Splits(m);
      forall i :: 0 <= i < |r| - 1 ==> r[i].splitLabel == FormatSplitLabel(m.splitInterval, i + 1)
  {
    var d, total := m.splitInterval.DistanceMeters(), m.event.DistanceMeters();
    var n := total / d;
    assert (n - 1) * d < total;
    PassesNumbered(n, d, total);
  }

  /** Split distances strictly increase down the table, the final row included. */
  lemma SplitDistancesIncrease(m: PaceMarker)
    ensures var r := Splits(m);
      forall i, j :: 0 <= i < j < |r| ==> r[i].distance < r[j].distance
  {
    SplitsShape(m);
    var r, d := Splits(m), m.splitInterval.DistanceMeters();
    forall i, j | 0 <= i < j < |r| ensures r[i].distance < r[j].distance {
      if j < |r| - 1 {
        assert (j + 1) * d - (i + 1) * d == (j - i) * d;
      }
    }
  }

  /**
   * With a non-negative target, no split time is negative or exceeds the
   * target, which the final row shows exactly, and split times never
   * decrease down the table.
   */
  lemma SplitTimesPaced(m: PaceMarker)
    requires m.targetTime >= 0
    ensures var r := Splits(m);
      && (forall i :: 0 <= i < |r| ==> 0 <= r[i].time <= m.targetTime)
      && (forall i, j :: 0 <= i < j < |r| ==> r[i].time <= r[j].time)
  {
    SplitsShape(m);
    SplitDistancesIncrease(m);
    EvenPaceTimes(m, Splits(m));
  }

  /** Rows timed at an even pace over increasing distances inside the event, ending at the target. */
  lemma EvenPaceTimes(m: PaceMarker, r: seq<PaceSplit>)
    requires m.targetTime >= 0 && |r| >= 1 && r[|r| - 1].time == m.targetTime
    requires forall i :: 0 <= i < |r| - 1 ==>
      0 < r[i].distance < m.event.DistanceMeters() && r[i].time == SplitTime(m, r[i].distance)
    requires forall i, j :: 0 <= i < j < |r| ==> r[i].distance < r[j].distance
    ensures forall i :: 0 <= i < |r| ==> 0 <= r[i].time <= m.targetTime
    ensures forall i, j :: 0 <= i < j < |r| ==> r[i].time <= r[j].time
  {
    var total, t := m.event.DistanceMeters(), m.targetTime;
    forall i | 0 <= i < |r| - 1 ensures 0 <= r[i].time <= t {
      TimeWithinTarget(r[i].distance, t, total);
    }
    forall i, j | 0 <= i < j < |r| ensures r[i].time <= r[j].time {
      if j < |r| - 1 {
        MulMonotone(r[i].distance, r[j].distance, t);
        QuotMonotone(r[i].distance * t, r[j].distance * t, total);
      }
    }
  }

  lemma TimeWithinTarget(distance: int, t: int, total: int)
    requires 0 < distance < total && t >= 0
    ensures 0 <= Quot(distance * t, total) <= t
  {
    MulMonotone(distance, total, t);
    assert total * t == t * total;
    QuotAtMost(distance * t, total, t);
  }

  lemma MulMonotone(a: int, b: int, t: int)
    requires 0 <= a <= b && t >= 0
    ensures 0 <= a * t <= b * t
  {
  }
}
