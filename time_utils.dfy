/**
 * `TimeUtils`: the three ways the race timer prints a duration given in
 * milliseconds. Kotlin's `/` and `%` truncate toward zero, so the fields of
 * a negative duration come out negative; the formatters are total and the
 * read-back lemmas describe them for the non-negative durations the timer
 * produces.
 */
module TimeUtils {
  import opened Arith
  import opened Text

  /**
   * `formatTime`: "MM:SS", preceded by "HH:" when at least an hour has
   * passed and followed by ".cc" (centiseconds) when `showMillis` is set.
   */
  function FormatTime(millis: int, showMillis: bool): string {
    var totalSeconds := Quot(millis, 1000);
    var hours := Quot(totalSeconds, 3600);
    var minutes := Quot(Rem(totalSeconds, 3600), 60);
    var seconds := Rem(totalSeconds, 60);
    var centis := Quot(Rem(millis, 1000), 10);
    ClockText(hours > 0, Pad2(hours), Pad2(minutes), Pad2(seconds), showMillis, Pad2(centis))
  }

  /** The text `formatTime` appends, field by field. */
  function ClockText(withHours: bool, hh: string, mm: string, ss: string, showMillis: bool, cc: string): string {
    var clock := (if withHours then hh + ":" else "") + mm + ":" + ss;
    if showMillis then clock + "." + cc else clock
  }

  /** `formatLapTime`: "M:SS.cc" from one minute on, "S.ccs" below. */
  function FormatLapTime(millis: int): string {
    var totalSeconds := Quot(millis, 1000);
    var minutes := Quot(totalSeconds, 60);
    var seconds := Rem(totalSeconds, 60);
    var centis := Quot(Rem(millis, 1000), 10);
    if minutes > 0 then MinutesText(IntToString(minutes), Pad2(seconds), Pad2(centis))
    else SecondsText(IntToString(seconds), Pad2(centis))
  }

  function MinutesText(mm: string, ss: string, cc: string): string { mm + ":" + ss + "." + cc }

  function SecondsText(ss: string, cc: string): string { ss + "." + cc + "s" }

  /** `formatDuration`: "Hh Mm Ss", "Mm Ss" or "Ss", dropping leading zero units. */
  function FormatDuration(millis: int): string {
    var totalSeconds := Quot(millis, 1000);
    var hours := Quot(totalSeconds, 3600);
    var minutes := Quot(Rem(totalSeconds, 3600), 60);
    var seconds := Rem(totalSeconds, 60);
    UnitsText(hours > 0, minutes > 0, IntToString(hours), IntToString(minutes), IntToString(seconds))
  }

  /** The text `formatDuration` chooses between. */
  function UnitsText(withHours: bool, withMinutes: bool, hh: string, mm: string, ss: string): string {
    if withHours then hh + "h " + mm + "m " + ss + "s"
    else if withMinutes then mm + "m " + ss + "s"
    else ss + "s"
  }

  /** Whole seconds split into hours, minutes below 60 and seconds below 60 add back up. */
  lemma SecondsSplit(ts: int)
    requires ts >= 0
    ensures ts % 3600 / 60 < 60 && ts % 60 < 60
    ensures ts / 3600 * 3600 + ts % 3600 / 60 * 60 + ts % 60 == ts
  {
    var r := ts % 3600;
    assert ts == ts / 3600 * 3600 + r;
    assert r == r / 60 * 60 + r % 60;
    assert ts % 60 == r % 60 by {
      assert ts == (ts / 3600 * 60) * 60 + r;
      assert ts == (ts / 3600 * 60 + r / 60) * 60 + r % 60;
    }
  }

  /** Milliseconds split into whole seconds and centiseconds add back up to the truncated value. */
  lemma MillisSplit(millis: int)
    requires millis >= 0
    ensures millis % 1000 / 10 < 100
    ensures millis / 1000 * 1000 + millis % 1000 / 10 * 10 == millis - millis % 10
  {
    var r := millis % 1000;
    assert millis == millis / 1000 * 1000 + r;
    assert r == r / 10 * 10 + r % 10;
    assert millis % 10 == r % 10 by {
      assert millis == (millis / 1000 * 100 + r / 10) * 10 + r % 10;
    }
  }

  /** The fields `FormatTime` computes, for a non-negative duration, in Dafny's operators. */
  lemma TimeFields(millis: int)
    requires millis >= 0
    ensures var ts := millis / 1000;
      && Quot(millis, 1000) == ts
      && Quot(ts, 3600) == ts / 3600
      && Quot(Rem(ts, 3600), 60) == ts % 3600 / 60
      && Rem(ts, 60) == ts % 60
      && Quot(Rem(millis, 1000), 10) == millis % 1000 / 10
      && Quot(ts, 60) == ts / 60
  {
    var ts := millis / 1000;
    NonNegativeAgrees(millis, 1000);
    NonNegativeAgrees(ts, 3600);
    NonNegativeAgrees(ts % 3600, 60);
    NonNegativeAgrees(ts, 60);
    NonNegativeAgrees(millis % 1000, 10);
  }

  /** A non-negative value below 100 printed as a two-digit field. */
  predicate TwoDigitsOf(d: string, n: int) {
    |d| == 2 && AllDigits(d) && ValueOf(d) == n
  }

  /** A non-negative value printed as a field of digits. */
  predicate DigitsOf(d: string, n: int) {
    |d| > 0 && AllDigits(d) && ValueOf(d) == n
  }

  lemma Pad2Field(n: int)
    requires 0 <= n
    ensures DigitsOf(Pad2(n), n) && |Pad2(n)| >= 2
    ensures n < 100 ==> TwoDigitsOf(Pad2(n), n)
  {
    Pad2Reads(n);
  }

  lemma NumeralField(n: int)
    requires 0 <= n
    ensures DigitsOf(IntToString(n), n) && Canonical(IntToString(n))
  {
  }

  /** A first field and its separator. */
  lemma Opening(d: string, x: string)
    requires |d| > 0 && AllDigits(d) && NoDigits(x) && x != []
    ensures Runs(d + x) == [d] && NonDigits(d + x) == x && EndsOutsideRun(d + x)
  {
    Field("", d, x);
    assert "" + d + x == d + x;
  }

  /** "HH:MM:SS.cc" reads back as four fields. */
  lemma HmsCcReads(hh: string, mm: string, ss: string, cc: string)
    requires |hh| > 0 && AllDigits(hh) && |mm| > 0 && AllDigits(mm)
    requires |ss| > 0 && AllDigits(ss) && |cc| > 0 && AllDigits(cc)
    ensures var r := hh + ":" + mm + ":" + ss + "." + cc;
      NonDigits(r) == "::." && Runs(r) == [hh, mm, ss, cc]
  {
    Opening(hh, ":");
    ThreeFields(hh + ":", mm, ":", ss, ".", cc, "");
    assert hh + ":" + mm + ":" + ss + "." + cc + "" == hh + ":" + mm + ":" + ss + "." + cc;
    assert ":" + ":" + "." + "" == "::.";
  }

  /** "HH:MM:SS" reads back as three fields. */
  lemma HmsReads(hh: string, mm: string, ss: string)
    requires |hh| > 0 && AllDigits(hh) && |mm| > 0 && AllDigits(mm) && |ss| > 0 && AllDigits(ss)
    ensures var r := hh + ":" + mm + ":" + ss;
      NonDigits(r) == "::" && Runs(r) == [hh, mm, ss]
  {
    Opening(hh, ":");
    TwoFields(hh + ":", mm, ":", ss, "");
    assert hh + ":" + mm + ":" + ss + "" == hh + ":" + mm + ":" + ss;
    assert ":" + ":" + "" == "::";
  }

  /** "MM:SS.cc" reads back as three fields. */
  lemma MsCcReads(mm: string, ss: string, cc: string)
    requires |mm| > 0 && AllDigits(mm) && |ss| > 0 && AllDigits(ss) && |cc| > 0 && AllDigits(cc)
    ensures var r := mm + ":" + ss + "." + cc;
      NonDigits(r) == ":." && Runs(r) == [mm, ss, cc]
  {
    ThreeFields("", mm, ":", ss, ".", cc, "");
    assert "" + mm + ":" + ss + "." + cc + "" == mm + ":" + ss + "." + cc;
    assert "" + ":" + "." + "" == ":.";
  }

  /** "MM:SS" reads back as two fields. */
  lemma MsReads(mm: string, ss: string)
    requires |mm| > 0 && AllDigits(mm) && |ss| > 0 && AllDigits(ss)
    ensures var r := mm + ":" + ss;
      NonDigits(r) == ":" && Runs(r) == [mm, ss]
  {
    TwoFields("", mm, ":", ss, "");
    assert "" + mm + ":" + ss + "" == mm + ":" + ss;
    assert "" + ":" + "" == ":";
  }

  /**
   * The clock text reads back as its fields, separated by ":" and (before
   * the centiseconds) ".": separators, field widths and values.
   */
  lemma ClockReads(r: string, withHours: bool, hh: string, mm: string, ss: string, showMillis: bool, cc: string,
                   h: int, m: int, sec: int, cs: int)
    requires r == ClockText(withHours, hh, mm, ss, showMillis, cc)
    requires DigitsOf(hh, h) && |hh| >= 2 && TwoDigitsOf(mm, m) && TwoDigitsOf(ss, sec) && TwoDigitsOf(cc, cs)
    ensures var v := Values(r);
      withHours && showMillis ==>
        && NonDigits(r) == "::." && |v| == 4 && |Runs(r)[0]| >= 2 && |Runs(r)[1]| == |Runs(r)[2]| == |Runs(r)[3]| == 2
        && v[0] == h && v[1] == m && v[2] == sec && v[3] == cs
    ensures var v := Values(r);
      withHours && !showMillis ==>
        && NonDigits(r) == "::" && |v| == 3 && |Runs(r)[0]| >= 2 && |Runs(r)[1]| == |Runs(r)[2]| == 2
        && v[0] == h && v[1] == m && v[2] == sec
    ensures var v := Values(r);
      !withHours && showMillis ==>
        && NonDigits(r) == ":." && |v| == 3 && |Runs(r)[0]| == |Runs(r)[1]| == |Runs(r)[2]| == 2
        && v[0] == m && v[1] == sec && v[2] == cs
    ensures var v := Values(r);
      !withHours && !showMillis ==>
        && NonDigits(r) == ":" && |v| == 2 && |Runs(r)[0]| == |Runs(r)[1]| == 2
        && v[0] == m && v[1] == sec
  {
    if withHours && showMillis {
      HmsCcReads(hh, mm, ss, cc);
    } else if withHours {
      HmsReads(hh, mm, ss);
    } else if showMillis {
      assert r == mm + ":" + ss + "." + cc;
      MsCcReads(mm, ss, cc);
    } else {
      assert r == mm + ":" + ss;
      MsReads(mm, ss);
    }
  }

  /**
   * `FormatTime` reads back: its digit fields, separated by ":" (and "."
   * before the centiseconds), are the hours (only from one hour on, at least
   * two digits), minutes and seconds below 60 and centiseconds, each exactly
   * two digits, and they add up to the duration truncated to centiseconds
   * (to seconds without them).
   */
  lemma FormatTimeReadsBack(millis: int, showMillis: bool)
    requires millis >= 0
    ensures var r := FormatTime(millis, showMillis);
      var v := Values(r);
      millis >= 3600000 && showMillis ==>
        && NonDigits(r) == "::." && |v| == 4 && |Runs(r)[0]| >= 2 && |Runs(r)[1]| == |Runs(r)[2]| == |Runs(r)[3]| == 2
        && v[0] >= 1 && v[1] < 60 && v[2] < 60 && v[3] < 100
        && v[0] * 3600000 + v[1] * 60000 + v[2] * 1000 + v[3] * 10 == millis - millis % 10
    ensures var r := FormatTime(millis, showMillis);
      var v := Values(r);
      millis >= 3600000 && !showMillis ==>
        && NonDigits(r) == "::" && |v| == 3 && |Runs(r)[0]| >= 2 && |Runs(r)[1]| == |Runs(r)[2]| == 2
        && v[0] >= 1 && v[1] < 60 && v[2] < 60
        && v[0] * 3600000 + v[1] * 60000 + v[2] * 1000 == millis - millis % 1000
    ensures var r := FormatTime(millis, showMillis);
      var v := Values(r);
      millis < 3600000 && showMillis ==>
        && NonDigits(r) == ":." && |v| == 3 && |Runs(r)[0]| == |Runs(r)[1]| == |Runs(r)[2]| == 2
        && v[0] < 60 && v[1] < 60 && v[2] < 100
        && v[0] * 60000 + v[1] * 1000 + v[2] * 10 == millis - millis % 10
    ensures var r := FormatTime(millis, showMillis);
      var v := Values(r);
      millis < 3600000 && !showMillis ==>
        && NonDigits(r) == ":" && |v| == 2 && |Runs(r)[0]| == |Runs(r)[1]| == 2
        && v[0] < 60 && v[1] < 60
        && v[0] * 60000 + v[1] * 1000 == millis - millis % 1000
  {
    if millis >= 3600000 {
      HoursClockReads(millis, showMillis);
    } else {
      MinutesClockReads(millis, showMillis);
    }
  }

  /** `FormatTime` of a non-negative duration is the clock text of its fields, in Dafny's operators. */
  lemma ClockFields(millis: int, showMillis: bool)
    requires millis >= 0
    ensures var ts := millis / 1000;
      var h, m, sec, cs := ts / 3600, ts % 3600 / 60, ts % 60, millis % 1000 / 10;
      && FormatTime(millis, showMillis) == ClockText(h > 0, Pad2(h), Pad2(m), Pad2(sec), showMillis, Pad2(cs))
      && (h > 0 <==> millis >= 3600000) && h >= 0 && 0 <= m < 60 && 0 <= sec < 60 && 0 <= cs < 100
      && h * 3600000 + m * 60000 + sec * 1000 + cs * 10 == millis - millis % 10
      && h * 3600000 + m * 60000 + sec * 1000 == millis - millis % 1000
  {
    var ts := millis / 1000;
    TimeFields(millis);
    SecondsSplit(ts);
    MillisSplit(millis);
    var h, m, sec := ts / 3600, ts % 3600 / 60, ts % 60;
    assert h * 3600000 + m * 60000 + sec * 1000 == (h * 3600 + m * 60 + sec) * 1000;
  }

  lemma HoursClockReads(millis: int, showMillis: bool)
    requires millis >= 3600000
    ensures var r := FormatTime(millis, showMillis);
      var v := Values(r);
      showMillis ==>
        && NonDigits(r) == "::." && |v| == 4 && |Runs(r)[0]| >= 2 && |Runs(r)[1]| == |Runs(r)[2]| == |Runs(r)[3]| == 2
        && v[0] >= 1 && v[1] < 60 && v[2] < 60 && v[3] < 100
        && v[0] * 3600000 + v[1] * 60000 + v[2] * 1000 + v[3] * 10 == millis - millis % 10
    ensures var r := FormatTime(millis, showMillis);
      var v := Values(r);
      !showMillis ==>
        && NonDigits(r) == "::" && |v| == 3 && |Runs(r)[0]| >= 2 && |Runs(r)[1]| == |Runs(r)[2]| == 2
        && v[0] >= 1 && v[1] < 60 && v[2] < 60
        && v[0] * 3600000 + v[1] * 60000 + v[2] * 1000 == millis - millis % 1000
  {
    ClockFields(millis, showMillis);
    var ts := millis / 1000;
    var h, m, sec, cs := ts / 3600, ts % 3600 / 60, ts % 60, millis % 1000 / 10;
    if showMillis {
      HoursCentisRead(FormatTime(millis, true), millis, h, m, sec, cs);
    } else {
      HoursSecondsRead(FormatTime(millis, false), millis, h, m, sec, cs);
    }
  }

  /** The clock text with hours and centiseconds reads back as its fields, whatever duration they add up to. */
  lemma HoursCentisRead(r: string, millis: int, h: int, m: int, sec: int, cs: int)
    requires r == ClockText(true, Pad2(h), Pad2(m), Pad2(sec), true, Pad2(cs))
    requires h >= 1 && 0 <= m < 60 && 0 <= sec < 60 && 0 <= cs < 100
    requires h * 3600000 + m * 60000 + sec * 1000 + cs * 10 == millis - millis % 10
    ensures var v := Values(r);
      && NonDigits(r) == "::." && |v| == 4 && |Runs(r)[0]| >= 2 && |Runs(r)[1]| == |Runs(r)[2]| == |Runs(r)[3]| == 2
      && v[0] >= 1 && v[1] < 60 && v[2] < 60 && v[3] < 100
      && v[0] * 3600000 + v[1] * 60000 + v[2] * 1000 + v[3] * 10 == millis - millis % 10
  {
    Pad2Field(h);
    Pad2Field(m);
    Pad2Field(sec);
    Pad2Field(cs);
    ClockReads(r, true, Pad2(h), Pad2(m), Pad2(sec), true, Pad2(cs), h, m, sec, cs);
  }

  /** The clock text with hours and no centiseconds reads back as its fields. */
  lemma HoursSecondsRead(r: string, millis: int, h: int, m: int, sec: int, cs: int)
    requires r == ClockText(true, Pad2(h), Pad2(m), Pad2(sec), false, Pad2(cs))
    requires h >= 1 && 0 <= m < 60 && 0 <= sec < 60 && 0 <= cs < 100
    requires h * 3600000 + m * 60000 + sec * 1000 == millis - millis % 1000
    ensures var v := Values(r);
      && NonDigits(r) == "::" && |v| == 3 && |Runs(r)[0]| >= 2 && |Runs(r)[1]| == |Runs(r)[2]| == 2
      && v[0] >= 1 && v[1] < 60 && v[2] < 60
      && v[0] * 3600000 + v[1] * 60000 + v[2] * 1000 == millis - millis % 1000
  {
    Pad2Field(h);
    Pad2Field(m);
    Pad2Field(sec);
    Pad2Field(cs);
    ClockReads(r, true, Pad2(h), Pad2(m), Pad2(sec), false, Pad2(cs), h, m, sec, cs);
  }

  lemma MinutesClockReads(millis: int, showMillis: bool)
    requires 0 <= millis < 3600000
    ensures var r := FormatTime(millis, showMillis);
      var v := Values(r);
      showMillis ==>
        && NonDigits(r) == ":." && |v| == 3 && |Runs(r)[0]| == |Runs(r)[1]| == |Runs(r)[2]| == 2
        && v[0] < 60 && v[1] < 60 && v[2] < 100
        && v[0] * 60000 + v[1] * 1000 + v[2] * 10 == millis - millis % 10
    ensures var r := FormatTime(millis, showMillis);
      var v := Values(r);
      !showMillis ==>
        && NonDigits(r) == ":" && |v| == 2 && |Runs(r)[0]| == |Runs(r)[1]| == 2
        && v[0] < 60 && v[1] < 60
        && v[0] * 60000 + v[1] * 1000 == millis - millis % 1000
  {
    ClockFields(millis, showMillis);
    var ts := millis / 1000;
    var h, m, sec, cs := ts / 3600, ts % 3600 / 60, ts % 60, millis % 1000 / 10;
    Pad2Field(h);
    Pad2Field(m);
    Pad2Field(sec);
    Pad2Field(cs);
    ClockReads(FormatTime(millis, showMillis), h > 0, Pad2(h), Pad2(m), Pad2(sec), showMillis, Pad2(cs), h, m, sec, cs);
    assert h == 0;
  }

  /**
   * Showing the centiseconds only appends "." and the centiseconds to the
   * clock; for a non-negative duration those are exactly the two digits of
   * `(millis % 1000) / 10`.
   */
  lemma CentisecondsExtendClock(millis: int)
    ensures var short, long := FormatTime(millis, false), FormatTime(millis, true);
      && |short| < |long| && long[..|short|] == short && long[|short|] == '.'
    ensures millis >= 0 ==>
      && FormatTime(millis, true) == FormatTime(millis, false) + "." + Pad2(millis % 1000 / 10)
      && |Pad2(millis % 1000 / 10)| == 2
  {
    if millis >= 0 {
      NonNegativeAgrees(millis, 1000);
      NonNegativeAgrees(millis % 1000, 10);
      Pad2Field(millis % 1000 / 10);
    }
    var totalSeconds := Quot(millis, 1000);
    var hours := Quot(totalSeconds, 3600);
    var minutes := Quot(Rem(totalSeconds, 3600), 60);
    var seconds := Rem(totalSeconds, 60);
    var centis := Quot(Rem(millis, 1000), 10);
    var short := ClockText(hours > 0, Pad2(hours), Pad2(minutes), Pad2(seconds), false, Pad2(centis));
    AppendPoint(short, Pad2(centis));
  }

  lemma AppendPoint(clock: string, cc: string)
    ensures |clock| < |clock + "." + cc| && (clock + "." + cc)[..|clock|] == clock
    ensures (clock + "." + cc)[|clock|] == '.'
  {
    assert (clock + "." + cc)[..|clock|] == clock;
  }

  /**
   * `FormatLapTime` reads back: from one minute on, unpadded minutes (never
   * wrapped into hours), ":" and two-digit seconds; below a minute the
   * seconds alone; then "." and two-digit centiseconds (and a trailing "s"
   * without minutes). The fields add up to the duration truncated to
   * centiseconds.
   */
  lemma FormatLapTimeReadsBack(millis: int)
    requires millis >= 0
    ensures var r := FormatLapTime(millis);
      var v := Values(r);
      millis >= 60000 ==>
        && NonDigits(r) == ":." && |v| == 3
        && Canonical(Runs(r)[0]) && v[0] >= 1
        && |Runs(r)[1]| == 2 && v[1] < 60 && |Runs(r)[2]| == 2 && v[2] < 100
        && v[0] * 60000 + v[1] * 1000 + v[2] * 10 == millis - millis % 10
    ensures var r := FormatLapTime(millis);
      var v := Values(r);
      millis < 60000 ==>
        && NonDigits(r) == ".s" && |v| == 2
        && Canonical(Runs(r)[0]) && v[0] < 60 && |Runs(r)[1]| == 2 && v[1] < 100
        && v[0] * 1000 + v[1] * 10 == millis - millis % 10
  {
    var ts := millis / 1000;
    TimeFields(millis);
    MillisSplit(millis);
    var m, sec, cs := ts / 60, ts % 60, millis % 1000 / 10;
    assert m > 0 <==> millis >= 60000;
    assert m * 60 + sec == ts;
    NumeralField(m);
    NumeralField(sec);
    Pad2Field(sec);
    Pad2Field(cs);
    if m > 0 {
      MinutesTextReads(IntToString(m), Pad2(sec), Pad2(cs), m, sec, cs);
      assert m * 60000 + sec * 1000 + cs * 10 == (m * 60 + sec) * 1000 + cs * 10;
    } else {
      SecondsTextReads(IntToString(sec), Pad2(cs), sec, cs);
    }
  }

  lemma MinutesTextReads(mm: string, ss: string, cc: string, m: int, sec: int, cs: int)
    requires DigitsOf(mm, m) && TwoDigitsOf(ss, sec) && TwoDigitsOf(cc, cs)
    ensures var r := MinutesText(mm, ss, cc);
      NonDigits(r) == ":." && Runs(r) == [mm, ss, cc] && Values(r) == [m, sec, cs]
  {
    ThreeFields("", mm, ":", ss, ".", cc, "");
    assert "" + mm + ":" + ss + "." + cc + "" == MinutesText(mm, ss, cc);
  }

  lemma SecondsTextReads(ss: string, cc: string, sec: int, cs: int)
    requires DigitsOf(ss, sec) && TwoDigitsOf(cc, cs)
    ensures var r := SecondsText(ss, cc);
      NonDigits(r) == ".s" && Runs(r) == [ss, cc] && Values(r) == [sec, cs]
  {
    TwoFields("", ss, ".", cc, "s");
    assert "" + ss + "." + cc + "s" == SecondsText(ss, cc);
  }

  /**
   * `FormatDuration` reads back: hours, minutes and seconds marked "h", "m"
   * and "s", leading units left out while zero, adding up to the whole
   * seconds of the duration.
   */
  lemma FormatDurationReadsBack(millis: int)
    requires millis >= 0
    ensures var r := FormatDuration(millis);
      forall i :: 0 <= i < |Runs(r)| ==> Canonical(Runs(r)[i])
    ensures var r := FormatDuration(millis);
      var v := Values(r);
      millis >= 3600000 ==>
        && NonDigits(r) == "h m s" && |v| == 3
        && v[0] >= 1 && v[1] < 60 && v[2] < 60
        && v[0] * 3600 + v[1] * 60 + v[2] == millis / 1000
    ensures var r := FormatDuration(millis);
      var v := Values(r);
      60000 <= millis < 3600000 ==>
        && NonDigits(r) == "m s" && |v| == 2
        && v[0] >= 1 && v[1] < 60
        && v[0] * 60 + v[1] == millis / 1000
    ensures var r := FormatDuration(millis);
      var v := Values(r);
      millis < 60000 ==>
        NonDigits(r) == "s" && |v| == 1 && v[0] == millis / 1000 < 60
  {
    var ts := millis / 1000;
    TimeFields(millis);
    SecondsSplit(ts);
    var h, m, sec := ts / 3600, ts % 3600 / 60, ts % 60;
    assert h > 0 <==> millis >= 3600000;
    assert h == 0 ==> ts == m * 60 + sec;
    assert h == 0 ==> (m > 0 <==> millis >= 60000);
    NumeralField(h);
    NumeralField(m);
    NumeralField(sec);
    UnitsTextReads(h > 0, m > 0, IntToString(h), IntToString(m), IntToString(sec), h, m, sec);
  }

  lemma UnitsTextReads(withHours: bool, withMinutes: bool, hh: string, mm: string, ss: string,
                       h: int, m: int, sec: int)
    requires DigitsOf(hh, h) && DigitsOf(mm, m) && DigitsOf(ss, sec)
    ensures var r := UnitsText(withHours, withMinutes, hh, mm, ss);
      && (withHours ==> NonDigits(r) == "h m s" && Runs(r) == [hh, mm, ss] && Values(r) == [h, m, sec])
      && (!withHours && withMinutes ==> NonDigits(r) == "m s" && Runs(r) == [mm, ss] && Values(r) == [m, sec])
      && (!withHours && !withMinutes ==> NonDigits(r) == "s" && Runs(r) == [ss] && Values(r) == [sec])
  {
    if withHours {
      ThreeFields("", hh, "h ", mm, "m ", ss, "s");
      assert "" + hh + "h " + mm + "m " + ss + "s" == UnitsText(withHours, withMinutes, hh, mm, ss);
      assert "" + "h " + "m " + "s" == "h m s";
    } else if withMinutes {
      TwoFields("", mm, "m ", ss, "s");
      assert "" + mm + "m " + ss + "s" == UnitsText(withHours, withMinutes, hh, mm, ss);
      assert "" + "m " + "s" == "m s";
    } else {
      Field("", ss, "s");
      assert "" + ss + "s" == UnitsText(withHours, withMinutes, hh, mm, ss);
    }
  }

  // ---------------------------------------------------------------------------
  // Layouts shared by the formatters of the user interface

  /** A single number followed by a unit mark, as in "45s" or "2m". */
  lemma UnitReads(d: string, n: int, x: string)
    requires DigitsOf(d, n) && NoDigits(x)
    ensures NonDigits(d + x) == x && Runs(d + x) == [d] && Values(d + x) == [n]
  {
    Field("", d, x);
    assert "" + d + x == d + x;
  }

  /** Minutes and two-digit seconds, as in "12:05". */
  lemma MinSecReads(mm: string, ss: string, m: int, sec: int)
    requires DigitsOf(mm, m) && TwoDigitsOf(ss, sec)
    ensures NonDigits(mm + ":" + ss) == ":" && Runs(mm + ":" + ss) == [mm, ss]
    ensures Values(mm + ":" + ss) == [m, sec]
  {
    MsReads(mm, ss);
  }
}
