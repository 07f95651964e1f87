/** The load-time check that the coverage library is recent enough: the digit runs of
    its version string are read as integers, the first three are taken as major, minor
    and patch, and loading is refused when `major < 0 || minor < 9 || patch < 0`. */
module VersionGate {
  import opened Text

  predicate AllDigits(s: string) {
    forall i :: 0 <= i < |s| ==> IsDigit(s[i])
  }

  /** Length of the run of digits `s` starts with. */
  function DigitRunLength(s: string): (n: nat)
    ensures n <= |s|
    ensures AllDigits(s[..n])
    ensures n < |s| ==> !IsDigit(s[n])
  {
    if s != [] && IsDigit(s[0]) then 1 + DigitRunLength(s[1..]) else 0
  }

  /** `s.scan(/\d+/)`: the maximal runs of digits of `s`, left to right. */
  function DigitRuns(s: string): (runs: seq<string>)
    ensures forall k :: 0 <= k < |runs| ==> runs[k] != [] && AllDigits(runs[k])
    decreases |s|
  {
    if s == [] then []
    else if !IsDigit(s[0]) then DigitRuns(s[1..])
    else
      var n := DigitRunLength(s);
      [s[..n]] + DigitRuns(s[n..])
  }

  /** The digits of `s` in order, everything else dropped. */
  function OnlyDigits(s: string): string {
    if s == [] then []
    else if IsDigit(s[0]) then [s[0]] + OnlyDigits(s[1..])
    else OnlyDigits(s[1..])
  }

  function Concat(runs: seq<string>): string {
    if runs == [] then [] else runs[0] + Concat(runs[1..])
  }

  lemma {:induction false} OnlyDigitsAppend(a: string, b: string)
    ensures OnlyDigits(a + b) == OnlyDigits(a) + OnlyDigits(b)
    decreases |a|
  {
    if a != [] {
      assert (a + b)[1..] == a[1..] + b;
      OnlyDigitsAppend(a[1..], b);
    } else {
      assert a + b == b;
    }
  }

  lemma {:induction false} OnlyDigitsOfDigits(a: string)
    requires AllDigits(a)
    ensures OnlyDigits(a) == a
    decreases |a|
  {
    if a != [] {
      OnlyDigitsOfDigits(a[1..]);
      assert a == [a[0]] + a[1..];
    }
  }

  /** The runs lose no digit and invent none: joined together they are exactly
      the digits of the string. */
  lemma {:induction false} DigitRunsCoverDigits(s: string)
    ensures Concat(DigitRuns(s)) == OnlyDigits(s)
    decreases |s|
  {
    if s == [] {
    } else if !IsDigit(s[0]) {
      DigitRunsCoverDigits(s[1..]);
    } else {
      var n := DigitRunLength(s);
      DigitRunsCoverDigits(s[n..]);
      assert s == s[..n] + s[n..];
      OnlyDigitsAppend(s[..n], s[n..]);
      OnlyDigitsOfDigits(s[..n]);
      var runs := DigitRuns(s);
      assert runs == [s[..n]] + DigitRuns(s[n..]);
      assert runs[1..] == DigitRuns(s[n..]);
    }
  }

  lemma {:induction false} DigitRunLengthOf(d: string, rest: string)
    requires AllDigits(d)
    requires rest == [] || !IsDigit(rest[0])
    ensures DigitRunLength(d + rest) == |d|
    decreases |d|
  {
    if d == [] {
      assert d + rest == rest;
    } else {
      assert (d + rest)[1..] == d[1..] + rest;
      DigitRunLengthOf(d[1..], rest);
    }
  }

  /** A run of digits followed by a non-digit (or nothing) is scanned as one match. */
  lemma DigitRunsAfterRun(d: string, rest: string)
    requires d != [] && AllDigits(d)
    requires rest == [] || !IsDigit(rest[0])
    ensures DigitRuns(d + rest) == [d] + DigitRuns(rest)
  {
    DigitRunLengthOf(d, rest);
    assert (d + rest)[..|d|] == d;
    assert (d + rest)[|d|..] == rest;
  }

  /** A run of digits followed by a dot is scanned as one match, and the dot is skipped. */
  lemma DigitRunsRunThenDot(d: string, rest: string)
    requires d != [] && AllDigits(d)
    ensures DigitRuns(d + (['.'] + rest)) == [d] + DigitRuns(rest)
  {
    DigitRunsAfterRun(d, ['.'] + rest);
    assert (['.'] + rest)[1..] == rest;
  }

  lemma DigitRunsOfRun(d: string)
    requires d != [] && AllDigits(d)
    ensures DigitRuns(d) == [d]
  {
    DigitRunsAfterRun(d, "");
    assert d + "" == d;
  }

  /** The version string "a.b.c", grouped as a run and a dot followed by the rest. */
  function Dotted(a: string, b: string, c: string): string {
    a + (['.'] + (b + (['.'] + c)))
  }

  /** A dotted version "a.b.c" with digit components scans as [a, b, c]. */
  lemma DigitRunsOfDotted(a: string, b: string, c: string)
    requires a != [] && AllDigits(a)
    requires b != [] && AllDigits(b)
    requires c != [] && AllDigits(c)
    ensures DigitRuns(Dotted(a, b, c)) == [a, b, c]
  {
    DigitRunsOfRun(c);
    DigitRunsRunThenDot(b, c);
    DigitRunsRunThenDot(a, b + (['.'] + c));
  }

  /** String#to_i on a run of digits: its decimal value. */
  function DecimalValue(d: string): nat
    requires AllDigits(d)
  {
    if d == [] then 0
    else 10 * DecimalValue(d[..|d| - 1]) + (d[|d| - 1] as int - '0' as int)
  }

  /** `scan(/\d+/).first(3).map(&:to_i)`. */
  function VersionNumbers(version: string): (nums: seq<nat>)
    ensures |nums| == if |DigitRuns(version)| < 3 then |DigitRuns(version)| else 3
  {
    var runs := DigitRuns(version);
    var k := if |runs| < 3 then |runs| else 3;
    seq(k, i requires 0 <= i < k => DecimalValue(runs[i]))
  }

  /** How loading the file ends: it goes on, it raises "too old", or a comparison
      reaches a component the version string does not have (`nil < 0`, NoMethodError). */
  datatype Outcome = Loaded | TooOld | NilComparison

  /** The check as written, evaluated left to right: `major < 0 || minor < 9 || patch < 0`,
      where a missing component is nil. */
  function Gate(version: string): Outcome {
    var nums := VersionNumbers(version);
    if |nums| < 1 then NilComparison
    else if nums[0] < 0 then TooOld
    else if |nums| < 2 then NilComparison
    else if nums[1] < 9 then TooOld
    else if |nums| < 3 then NilComparison
    else if nums[2] < 0 then TooOld
    else Loaded
  }

  /** With at least three numbers in the version, loading is refused exactly when
      the minor number is below 9, whatever the major number is. */
  lemma GateWithThreeNumbers(version: string)
    requires |DigitRuns(version)| >= 3
    ensures Gate(version) != NilComparison
    ensures Gate(version) == TooOld <==> DecimalValue(DigitRuns(version)[1]) < 9
  {
  }

  /** The crash: a version with no number, or one number, or two numbers of which
      the second is at least 9. */
  lemma GateNilComparison(version: string)
    ensures Gate(version) == NilComparison <==>
      |DigitRuns(version)| < 2 ||
      (|DigitRuns(version)| == 2 && DecimalValue(DigitRuns(version)[1]) >= 9)
  {
  }

  /** On a dotted three-number version only the middle number decides. */
  lemma GateOfDotted(a: string, b: string, c: string)
    requires a != [] && AllDigits(a)
    requires b != [] && AllDigits(b)
    requires c != [] && AllDigits(c)
    ensures Gate(Dotted(a, b, c)) == if DecimalValue(b) < 9 then TooOld else Loaded
  {
    DigitRunsOfDotted(a, b, c);
  }

  lemma DecimalValueExamples()
    ensures DecimalValue("0") == 0 && DecimalValue("1") == 1
    ensures DecimalValue("8") == 8 && DecimalValue("18") == 18
  {
    assert "0"[..0] == "" && "1"[..0] == "" && "8"[..0] == "";
    assert "18"[..1] == "1";
  }

  lemma GateExamples()
    ensures Gate("0.18.5") == Loaded
    ensures Gate("0.8.0") == TooOld
    ensures Gate("1.0.0") == TooOld
  {
    DecimalValueExamples();
    GateOfDotted("0", "18", "5");
    assert Dotted("0", "18", "5") == "0.18.5";
    GateOfDotted("0", "8", "0");
    assert Dotted("0", "8", "0") == "0.8.0";
    GateOfDotted("1", "0", "0");
    assert Dotted("1", "0", "0") == "1.0.0";
  }

  /** The check the message "too old" evidently means: the version, with missing
      components read as 0, is at least 0.9.0 in the usual lexicographic order. */
  function GateIntended(version: string): (r: Outcome)
    ensures r != NilComparison
  {
    var nums := VersionNumbers(version);
    var major := if |nums| > 0 then nums[0] else 0;
    var minor := if |nums| > 1 then nums[1] else 0;
    if major > 0 || (major == 0 && minor >= 9) then Loaded else TooOld
  }

  /** The corrected check accepts every 1.x and later release, and agrees with the
      check as written on every three-number 0.x version. */
  lemma GateIntendedAgrees(version: string)
    ensures var nums := VersionNumbers(version);
      |nums| > 0 && nums[0] > 0 ==> GateIntended(version) == Loaded
    ensures var nums := VersionNumbers(version);
      |nums| == 3 && nums[0] == 0 ==> GateIntended(version) == Gate(version)
  {
  }

  lemma GateIntendedOfDotted(a: string, b: string, c: string)
    requires a != [] && AllDigits(a)
    requires b != [] && AllDigits(b)
    requires c != [] && AllDigits(c)
    ensures GateIntended(Dotted(a, b, c)) ==
      if DecimalValue(a) > 0 || DecimalValue(b) >= 9 then Loaded else TooOld
  {
    DigitRunsOfDotted(a, b, c);
  }

  lemma GateIntendedExamples()
    ensures GateIntended("0.18.5") == Loaded
    ensures GateIntended("0.8.0") == TooOld
    ensures GateIntended("1.0.0") == Loaded
  {
    DecimalValueExamples();
    GateIntendedOfDotted("0", "18", "5");
    assert Dotted("0", "18", "5") == "0.18.5";
    GateIntendedOfDotted("0", "8", "0");
    assert Dotted("0", "8", "0") == "0.8.0";
    GateIntendedOfDotted("1", "0", "0");
    assert Dotted("1", "0", "0") == "1.0.0";
  }
}
