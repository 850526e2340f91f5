/**
 * The parts of Kotlin's string library the race timer relies on: decimal
 * `toString`, `padStart`, `trim` and `isBlank`. Beside them, a way to read a
 * formatted string back: its maximal runs of decimal digits (`Runs`) and the
 * characters between them (`NonDigits`).
 */
module Text {
  import opened Wrappers
  import opened Arith
  import opened Seqs

  predicate IsDigit(c: char) { '0' <= c <= '9' }

  predicate AllDigits(s: string) { forall i :: 0 <= i < |s| ==> IsDigit(s[i]) }

  predicate NoDigits(s: string) { forall i :: 0 <= i < |s| ==> !IsDigit(s[i]) }

  function DigitChar(d: nat): (c: char)
    requires d < 10
    ensures IsDigit(c)
  {
    ('0' as int + d) as char
  }

  /** The value of a decimal digit (0 for any other character). */
  function DigitValue(c: char): (d: nat)
    ensures d < 10
  {
    if IsDigit(c) then c as int - '0' as int else 0
  }

  /** The number a string of decimal digits denotes, most significant digit first. */
  function ValueOf(s: string): nat {
    if s == [] then 0 else ValueOf(s[..|s| - 1]) * 10 + DigitValue(s[|s| - 1])
  }

  /** A decimal numeral as Kotlin prints one: at least one digit, no leading zero. */
  predicate Canonical(s: string) {
    |s| >= 1 && AllDigits(s) && (|s| > 1 ==> s[0] != '0')
  }

  /** Kotlin `n.toString()` for a non-negative number. */
  function Decimal(n: nat): (r: string)
    ensures Canonical(r) && ValueOf(r) == n
    ensures |r| == 1 <==> n < 10
    ensures |r| == 2 <==> 10 <= n < 100
    decreases n
  {
    if n < 10 then [DigitChar(n)] else Decimal(n / 10) + [DigitChar(n % 10)]
  }

  /** Kotlin `i.toString()` for any integer. */
  function IntToString(i: int): (r: string)
    ensures i >= 0 ==> Canonical(r) && ValueOf(r) == i
    ensures i < 0 ==> |r| >= 2 && r[0] == '-'
  {
    if i < 0 then "-" + Decimal(-i) else Decimal(i)
  }

  /** Kotlin `s.replace(c.toString(), "")`: `s` without any occurrence of `c`, otherwise in order. */
  function RemoveChar(s: string, c: char): (r: string)
    ensures |r| <= |s|
  {
    if s == [] then []
    else RemoveChar(s[..|s| - 1], c) + (if s[|s| - 1] == c then [] else [s[|s| - 1]])
  }

  /** `RemoveChar` leaves no `c` behind and changes nothing in a string without one. */
  lemma {:induction false} RemoveCharRemoves(s: string, c: char)
    ensures forall i :: 0 <= i < |RemoveChar(s, c)| ==> RemoveChar(s, c)[i] != c
    ensures (forall i :: 0 <= i < |s| ==> s[i] != c) ==> RemoveChar(s, c) == s
  {
    if s != [] {
      var init := s[..|s| - 1];
      RemoveCharRemoves(init, c);
      assert s == init + [s[|s| - 1]];
      if forall i :: 0 <= i < |s| ==> s[i] != c {
        assert forall i :: 0 <= i < |init| ==> init[i] != c by {
          forall i | 0 <= i < |init| ensures init[i] != c {
            assert init[i] == s[i];
          }
        }
      }
    }
  }

  /** The value of a non-empty string of decimal digits; None when it is empty or holds anything else. */
  function ParseDigits(s: string): (r: Option<nat>) {
    if s == [] || !IsDigit(s[|s| - 1]) then None
    else if |s| == 1 then Some(DigitValue(s[0]))
    else
      match ParseDigits(s[..|s| - 1])
      case None => None
      case Some(v) => Some(v * 10 + DigitValue(s[|s| - 1]))
  }

  /** `ParseDigits` succeeds exactly on non-empty digit strings, with the value they denote. */
  lemma {:induction false} ParseDigitsSpec(s: string)
    ensures ParseDigits(s).Some? <==> |s| > 0 && AllDigits(s)
    ensures ParseDigits(s).Some? ==> ParseDigits(s).value == ValueOf(s)
  {
    if |s| > 1 && IsDigit(s[|s| - 1]) {
      var init := s[..|s| - 1];
      ParseDigitsSpec(init);
      if AllDigits(init) {
        assert AllDigits(s) by {
          forall i | 0 <= i < |s| ensures IsDigit(s[i]) {
            if i < |init| {
              assert s[i] == init[i];
            }
          }
        }
      } else {
        var i :| 0 <= i < |init| && !IsDigit(init[i]);
        assert s[i] == init[i];
      }
    } else if |s| == 1 {
      assert s[..0] == [];
    }
  }

  const IntMin := -2147483648
  const IntMax := 2147483647

  /**
   * Kotlin `s.toIntOrNull()`: an optional sign followed by at least one
   * decimal digit, whose value fits in a 32-bit `Int`; None otherwise.
   */
  function ToIntOrNull(s: string): (r: Option<int>)
    ensures r.Some? ==> IntMin <= r.value <= IntMax
  {
    if s == [] then None
    else
      var digits := if s[0] == '-' || s[0] == '+' then s[1..] else s;
      match ParseDigits(digits)
      case None => None
      case Some(n) =>
        var v: int := if s[0] == '-' then -(n as int) else n;
        if IntMin <= v <= IntMax then Some(v) else None
  }

  /** An unsigned numeral in range parses to its value; the empty string does not parse. */
  lemma ToIntOrNullDigits(s: string)
    ensures |s| > 0 && AllDigits(s) && ValueOf(s) <= IntMax ==> ToIntOrNull(s) == Some(ValueOf(s))
    ensures s == [] ==> ToIntOrNull(s).None?
  {
    ParseDigitsSpec(s);
  }

  /** Kotlin `s.padStart(width, c)`: `s` preceded by enough copies of `c` to reach `width`. */
  function PadStart(s: string, width: nat, c: char): (r: string)
    ensures |r| == Max(|s|, width)
    ensures r == Repeat(c, |r| - |s|) + s
  {
    if |s| >= width then s else Repeat(c, width - |s|) + s
  }

  /** `n` copies of `c`. */
  function Repeat(c: char, n: nat): (r: string)
    ensures |r| == n && forall i :: 0 <= i < n ==> r[i] == c
  {
    if n == 0 then [] else [c] + Repeat(c, n - 1)
  }

  /** `n.toString().padStart(2, '0')`, the two-digit clock field. */
  function Pad2(n: int): string {
    PadStart(IntToString(n), 2, '0')
  }

  /** A padded non-negative field reads back as its value; below 100 it is exactly two digits. */
  lemma Pad2Reads(n: int)
    requires n >= 0
    ensures |Pad2(n)| >= 2 && AllDigits(Pad2(n)) && ValueOf(Pad2(n)) == n
    ensures |Pad2(n)| == 2 <==> n < 100
  {
    var d := Decimal(n);
    if n < 10 {
      assert Pad2(n) == ['0'] + d;
      assert (['0'] + d)[..1] == ['0'];
    } else {
      assert Pad2(n) == d;
    }
  }

  /** A padded non-negative value is a non-empty run of digits. */
  lemma Pad2IsField(n: int)
    requires n >= 0
    ensures |Pad2(n)| > 0 && AllDigits(Pad2(n))
  {
    Pad2Reads(n);
  }

  // ---------------------------------------------------------------------------
  // Reading a formatted string back

  /** The characters of `s` that are not decimal digits, in order. */
  function NonDigits(s: string): string {
    NonDigitsTo(s, |s|)
  }

  /** `NonDigits` of the first `n` characters of `s`. */
  function NonDigitsTo(s: string, n: nat): string
    requires n <= |s|
  {
    if n == 0 then []
    else NonDigitsTo(s, n - 1) + (if IsDigit(s[n - 1]) then [] else [s[n - 1]])
  }

  /** The maximal runs of consecutive decimal digits of `s`, in order. */
  function Runs(s: string): seq<string> {
    RunsTo(s, |s|)
  }

  /** `Runs` of the first `n` characters of `s`. */
  function RunsTo(s: string, n: nat): (r: seq<string>)
    requires n <= |s|
    ensures n > 0 && IsDigit(s[n - 1]) ==> r != []
  {
    if n == 0 then []
    else if !IsDigit(s[n - 1]) then RunsTo(s, n - 1)
    else if n > 1 && IsDigit(s[n - 2]) then
      var rs := RunsTo(s, n - 1);
      rs[..|rs| - 1] + [rs[|rs| - 1] + [s[n - 1]]]
    else RunsTo(s, n - 1) + [[s[n - 1]]]
  }

  /** Reading a prefix does not look past it. */
  lemma {:induction false} PrefixReads(a: string, b: string, n: nat)
    requires n <= |a|
    ensures RunsTo(a + b, n) == RunsTo(a, n) && NonDigitsTo(a + b, n) == NonDigitsTo(a, n)
  {
    if n > 0 {
      PrefixReads(a, b, n - 1);
      assert (a + b)[n - 1] == a[n - 1];
      if n > 1 {
        assert (a + b)[n - 2] == a[n - 2];
      }
    }
  }

  /** The numbers a formatted string shows, left to right. */
  function Values(s: string): (v: seq<nat>)
    ensures |v| == |Runs(s)|
  {
    ValuesOf(Runs(s))
  }

  /** The value of each numeral of `rs`. */
  function ValuesOf(rs: seq<string>): (v: seq<nat>)
    ensures |v| == |rs| && forall i :: 0 <= i < |rs| ==> v[i] == ValueOf(rs[i])
  {
    if rs == [] then [] else ValuesOf(rs[..|rs| - 1]) + [ValueOf(rs[|rs| - 1])]
  }

  /** Reading the values of known runs. */
  lemma ReadValues(s: string, runs: seq<string>, values: seq<int>)
    requires Runs(s) == runs && |runs| == |values|
    requires forall i :: 0 <= i < |runs| ==> ValueOf(runs[i]) == values[i]
    ensures Values(s) == values
  {
  }

  /** Reading the values of runs known in two parts. */
  lemma ReadValuesSplit(s: string, a: seq<string>, b: seq<string>, va: seq<int>, vb: seq<int>)
    requires Runs(s) == a + b && |a| == |va| && |b| == |vb|
    requires forall i :: 0 <= i < |a| ==> ValueOf(a[i]) == va[i]
    requires forall i :: 0 <= i < |b| ==> ValueOf(b[i]) == vb[i]
    ensures Values(s) == va + vb
  {
  }

  /** `s` ends in a character that is not a digit (or is empty). */
  predicate EndsOutsideRun(s: string) { s == [] || !IsDigit(s[|s| - 1]) }

  lemma RunsAppendDigits(a: string, d: string)
    requires EndsOutsideRun(a) && |d| > 0 && AllDigits(d)
    ensures Runs(a + d) == Runs(a) + [d]
    ensures NonDigits(a + d) == NonDigits(a)
  {
    var s := a + d;
    if |a| > 0 {
      assert s[|a| - 1] == a[|a| - 1];
    }
    forall i | |a| <= i < |a| + |d| ensures IsDigit(s[i]) {
      assert s[i] == d[i - |a|];
    }
    DigitsRead(s, |a|, |d|);
    PrefixReads(a, d, |a|);
    assert s[|a|..|a| + |d|] == d;
  }

  /** Reading `k` digits that start a run at position `m`: one more run, no more separators. */
  lemma DigitsRead(s: string, m: nat, k: nat)
    requires 1 <= k && m + k <= |s|
    requires m == 0 || !IsDigit(s[m - 1])
    requires forall i :: m <= i < m + k ==> IsDigit(s[i])
    ensures RunsTo(s, m + k) == RunsTo(s, m) + [s[m..m + k]]
    ensures NonDigitsTo(s, m + k) == NonDigitsTo(s, m)
  {
    DigitsRun(s, m, k);
    DigitsSkipped(s, m, k);
  }

  /** `k` digits that start a run at position `m` form one more run. */
  lemma {:induction false} DigitsRun(s: string, m: nat, k: nat)
    requires 1 <= k && m + k <= |s|
    requires m == 0 || !IsDigit(s[m - 1])
    requires forall i :: m <= i < m + k ==> IsDigit(s[i])
    ensures RunsTo(s, m + k) == RunsTo(s, m) + [s[m..m + k]]
  {
    if k == 1 {
      RunStarts(s, m, RunsTo(s, m));
    } else {
      DigitsRun(s, m, k - 1);
      DigitsRunGrows(s, m, k, RunsTo(s, m));
    }
  }

  /** One more digit after the run `s[m..m + k - 1]` makes it the run `s[m..m + k]`. */
  lemma DigitsRunGrows(s: string, m: nat, k: nat, prev: seq<string>)
    requires 2 <= k && m + k <= |s| && IsDigit(s[m + k - 1]) && IsDigit(s[m + k - 2])
    requires RunsTo(s, m + k - 1) == prev + [s[m..m + k - 1]]
    ensures RunsTo(s, m + k) == prev + [s[m..m + k]]
  {
    RunsToExtends(s, m + k, prev, s[m..m + k - 1]);
    SliceSnoc(s, m, m + k);
  }

  /** A digit after a separator (or at the start) opens a new run. */
  lemma RunStarts(s: string, m: nat, prev: seq<string>)
    requires m < |s| && IsDigit(s[m]) && (m == 0 || !IsDigit(s[m - 1]))
    requires RunsTo(s, m) == prev
    ensures RunsTo(s, m + 1) == prev + [s[m..m + 1]]
  {
    assert s[m..m + 1] == [s[m]];
  }

  /** A digit right after a digit lengthens the last run. */
  lemma RunsToExtends(s: string, n: nat, prev: seq<string>, run: string)
    requires 1 < n <= |s| && IsDigit(s[n - 1]) && IsDigit(s[n - 2])
    requires RunsTo(s, n - 1) == prev + [run]
    ensures RunsTo(s, n) == prev + [run + [s[n - 1]]]
  {
    SnocParts(prev, run);
  }

  /** Digits add nothing to the separators read. */
  lemma {:induction false} DigitsSkipped(s: string, m: nat, k: nat)
    requires m + k <= |s|
    requires forall i :: m <= i < m + k ==> IsDigit(s[i])
    ensures NonDigitsTo(s, m + k) == NonDigitsTo(s, m)
  {
    if k > 0 {
      DigitsSkipped(s, m, k - 1);
      assert IsDigit(s[m + k - 1]);
      assert NonDigitsTo(s, m + k - 1) + [] == NonDigitsTo(s, m + k - 1);
    }
  }

  lemma RunsAppendNonDigits(a: string, x: string)
    requires NoDigits(x)
    ensures Runs(a + x) == Runs(a)
    ensures NonDigits(a + x) == NonDigits(a) + x
    ensures x != [] ==> EndsOutsideRun(a + x)
  {
    SeparatorsRead(a, x, |x|);
    assert x[..|x|] == x;
  }

  /** Reading `a + x` up to the `k`-th character of `x`: the same runs, `x[..k]` more separators. */
  lemma {:induction false} SeparatorsRead(a: string, x: string, k: nat)
    requires NoDigits(x) && k <= |x|
    ensures RunsTo(a + x, |a| + k) == Runs(a)
    ensures NonDigitsTo(a + x, |a| + k) == NonDigits(a) + x[..k]
  {
    if k == 0 {
      PrefixReads(a, x, |a|);
      assert NonDigits(a) + x[..0] == NonDigits(a);
    } else {
      SeparatorsRead(a, x, k - 1);
      assert (a + x)[|a| + k - 1] == x[k - 1];
      assert x[..k - 1] + [x[k - 1]] == x[..k];
    }
  }

  /**
   * One field of a formatted string: a run of digits `d` followed by a
   * separator `x` that holds no digits.
   */
  lemma Field(a: string, d: string, x: string)
    requires EndsOutsideRun(a) && |d| > 0 && AllDigits(d) && NoDigits(x)
    ensures Runs(a + d + x) == Runs(a) + [d]
    ensures NonDigits(a + d + x) == NonDigits(a) + x
    ensures x != [] ==> EndsOutsideRun(a + d + x)
  {
    RunsAppendDigits(a, d);
    RunsAppendNonDigits(a + d, x);
  }

  /** A numeral printed by `IntToString` for a non-negative value, as one field. */
  lemma NumberField(a: string, n: int, x: string)
    requires EndsOutsideRun(a) && n >= 0 && NoDigits(x)
    ensures Runs(a + IntToString(n) + x) == Runs(a) + [IntToString(n)]
    ensures NonDigits(a + IntToString(n) + x) == NonDigits(a) + x
    ensures x != [] ==> EndsOutsideRun(a + IntToString(n) + x)
  {
    Field(a, IntToString(n), x);
  }

  /** A two-digit padded field. */
  lemma PaddedField(a: string, n: int, x: string)
    requires EndsOutsideRun(a) && n >= 0 && NoDigits(x)
    ensures Runs(a + Pad2(n) + x) == Runs(a) + [Pad2(n)]
    ensures NonDigits(a + Pad2(n) + x) == NonDigits(a) + x
    ensures x != [] ==> EndsOutsideRun(a + Pad2(n) + x)
  {
    Pad2Reads(n);
    Field(a, Pad2(n), x);
  }

  /** Two fields, the first followed by a separator. */
  lemma TwoFields(a: string, d1: string, x1: string, d2: string, x2: string)
    requires EndsOutsideRun(a) && NoDigits(x1) && NoDigits(x2) && x1 != []
    requires |d1| > 0 && AllDigits(d1) && |d2| > 0 && AllDigits(d2)
    ensures Runs(a + d1 + x1 + d2 + x2) == Runs(a) + [d1, d2]
    ensures NonDigits(a + d1 + x1 + d2 + x2) == NonDigits(a) + x1 + x2
  {
    Field(a, d1, x1);
    Field(a + d1 + x1, d2, x2);
  }

  /** Three fields, the first two followed by separators. */
  lemma ThreeFields(a: string, d1: string, x1: string, d2: string, x2: string, d3: string, x3: string)
    requires EndsOutsideRun(a) && NoDigits(x1) && NoDigits(x2) && NoDigits(x3) && x1 != [] && x2 != []
    requires |d1| > 0 && AllDigits(d1) && |d2| > 0 && AllDigits(d2) && |d3| > 0 && AllDigits(d3)
    ensures Runs(a + d1 + x1 + d2 + x2 + d3 + x3) == Runs(a) + [d1, d2, d3]
    ensures NonDigits(a + d1 + x1 + d2 + x2 + d3 + x3) == NonDigits(a) + x1 + x2 + x3
  {
    TwoFields(a, d1, x1, d2, x2);
    Field(a + d1 + x1 + d2 + x2, d3, x3);
  }

  /** `IntToString` of a non-negative value is a field of digits. */
  lemma NumeralIsField(n: int)
    requires n >= 0
    ensures |IntToString(n)| > 0 && AllDigits(IntToString(n))
  {
  }

  // ---------------------------------------------------------------------------
  // trim and isBlank

  /**
   * Kotlin's `Char.isWhitespace()`: the Unicode space, line and paragraph
   * separators (categories Zs, Zl, Zp) and the controls U+0009..U+000D and
   * U+001C..U+001F.
   */
  predicate IsWhitespace(c: char) {
    || ('\t' <= c <= '\r')
    || ('\U{1C}' <= c <= '\U{1F}')
    || c == ' '
    || c == '\U{A0}'
    || c == '\U{1680}'
    || ('\U{2000}' <= c <= '\U{200A}')
    || c == '\U{2028}' || c == '\U{2029}'
    || c == '\U{202F}' || c == '\U{205F}' || c == '\U{3000}'
  }

  /** Kotlin `s.isBlank()`: every character is whitespace. */
  predicate IsBlank(s: string) { forall i :: 0 <= i < |s| ==> IsWhitespace(s[i]) }

  function TrimStart(s: string): string
    decreases |s|
  {
    if s != [] && IsWhitespace(s[0]) then TrimStart(s[1..]) else s
  }

  function TrimEnd(s: string): string
    decreases |s|
  {
    if s != [] && IsWhitespace(s[|s| - 1]) then TrimEnd(s[..|s| - 1]) else s
  }

  /** Kotlin `s.trim()`: leading and trailing whitespace removed. */
  function Trim(s: string): string {
    TrimEnd(TrimStart(s))
  }

  lemma {:induction false} TrimStartBounds(s: string) returns (i: nat)
    ensures i <= |s| && TrimStart(s) == s[i..]
    ensures forall k :: 0 <= k < i ==> IsWhitespace(s[k])
    ensures i < |s| ==> !IsWhitespace(s[i])
    decreases |s|
  {
    if s != [] && IsWhitespace(s[0]) {
      var j := TrimStartBounds(s[1..]);
      i := j + 1;
      assert s[1..][j..] == s[i..];
      forall k | 0 <= k < i ensures IsWhitespace(s[k]) {
        if k > 0 { assert s[k] == s[1..][k - 1]; }
      }
    } else {
      i := 0;
    }
  }

  lemma {:induction false} TrimEndBounds(s: string) returns (j: nat)
    ensures j <= |s| && TrimEnd(s) == s[..j]
    ensures forall k :: j <= k < |s| ==> IsWhitespace(s[k])
    ensures 0 < j ==> !IsWhitespace(s[j - 1])
    decreases |s|
  {
    if s != [] && IsWhitespace(s[|s| - 1]) {
      j := TrimEndBounds(s[..|s| - 1]);
      assert s[..|s| - 1][..j] == s[..j];
    } else {
      j := |s|;
      assert s[..j] == s;
    }
  }

  /**
   * `Trim(s)` is the slice of `s` between a whitespace prefix and a whitespace
   * suffix, and it neither starts nor ends with whitespace.
   */
  lemma TrimBounds(s: string) returns (i: nat, j: nat)
    ensures i <= j <= |s| && Trim(s) == s[i..j]
    ensures forall k :: 0 <= k < i ==> IsWhitespace(s[k])
    ensures forall k :: j <= k < |s| ==> IsWhitespace(s[k])
    ensures i < j ==> !IsWhitespace(s[i]) && !IsWhitespace(s[j - 1])
  {
    i := TrimStartBounds(s);
    var t := s[i..];
    var m := TrimEndBounds(t);
    j := i + m;
    assert t[..m] == s[i..j];
    forall k | j <= k < |s| ensures IsWhitespace(s[k]) {
      assert s[k] == t[k - i];
    }
    if i < j {
      assert s[i] == t[0];
      assert s[j - 1] == t[m - 1];
    }
  }

  /** A string is blank exactly when trimming leaves nothing of it. */
  lemma BlankIffTrimEmpty(s: string)
    ensures IsBlank(s) <==> Trim(s) == []
  {
    var i, j := TrimBounds(s);
    if Trim(s) == [] {
      assert i == j;
    } else {
      assert !IsWhitespace(s[i]);
    }
  }
}
