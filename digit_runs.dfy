/**
 * The digit-run sum `sum(int(num) for num in re.findall(r'\d+', s))`:
 * the matches of the regular expression `\d+` are the maximal, non-empty runs
 * of decimal digits of `s`, found left to right, and each is read as a
 * base-10 integer.  Only ASCII digits are treated as `\d`.
 */
module DigitRuns {

  predicate IsDigit(c: char) {
    '0' <= c <= '9'
  }

  function DigitValue(c: char): (d: nat)
    requires IsDigit(c)
    ensures d < 10
  {
    (c as int) - ('0' as int)
  }

  predicate AllDigits(s: string) {
    forall i :: 0 <= i < |s| ==> IsDigit(s[i])
  }

  predicate NoDigits(s: string) {
    forall i :: 0 <= i < |s| ==> !IsDigit(s[i])
  }

  /** Length of the longest prefix of `s` that consists of digits. */
  function DigitPrefixLength(s: string): (n: nat)
    ensures n <= |s|
    ensures AllDigits(s[..n])
    ensures n < |s| ==> !IsDigit(s[n])
  {
    if s == [] || !IsDigit(s[0]) then 0
    else
      var m := DigitPrefixLength(s[1..]);
      assert s[..1 + m] == [s[0]] + s[1..][..m];
      1 + m
  }

  /** `re.findall(r'\d+', s)`: the maximal digit runs of `s`, left to right. */
  function FindDigitRuns(s: string): (runs: seq<string>)
    ensures forall k :: 0 <= k < |runs| ==> runs[k] != [] && AllDigits(runs[k])
    decreases |s|
  {
    if s == [] then []
    else if !IsDigit(s[0]) then FindDigitRuns(s[1..])
    else
      var n := DigitPrefixLength(s);
      [s[..n]] + FindDigitRuns(s[n..])
  }

  /** `int(num)` for a string of decimal digits. */
  function DecimalValue(run: string): (value: nat)
    requires AllDigits(run)
  {
    if run == [] then 0
    else 10 * DecimalValue(run[..|run| - 1]) + DigitValue(run[|run| - 1])
  }

  /** `sum(int(num) for num in runs)`. */
  function SumOfValues(runs: seq<string>): (total: nat)
    requires forall k :: 0 <= k < |runs| ==> AllDigits(runs[k])
  {
    if runs == [] then 0
    else DecimalValue(runs[0]) + SumOfValues(runs[1..])
  }

  /** The sum of every digit run of `s` read as an integer. */
  function DigitRunSum(s: string): (total: nat) {
    SumOfValues(FindDigitRuns(s))
  }

  /** The digits of `s`, in order, with everything else dropped. */
  function DigitsOf(s: string): (d: string)
    ensures AllDigits(d)
  {
    if s == [] then []
    else if IsDigit(s[0]) then [s[0]] + DigitsOf(s[1..])
    else DigitsOf(s[1..])
  }

  /** The runs written one after another. */
  function Concat(runs: seq<string>): (joined: string) {
    if runs == [] then [] else runs[0] + Concat(runs[1..])
  }

  /** A string without digits has no match, so its digit-run sum is 0. */
  lemma {:induction false} NoDigitsNoRuns(s: string)
    requires NoDigits(s)
    ensures FindDigitRuns(s) == []
    ensures DigitRunSum(s) == 0
  {
    if s != [] {
      NoDigitsNoRuns(s[1..]);
    }
  }

  lemma {:induction false} AllDigitsPrefixIsWhole(s: string)
    requires AllDigits(s)
    ensures DigitPrefixLength(s) == |s|
  {
    if s != [] {
      AllDigitsPrefixIsWhole(s[1..]);
    }
  }

  /** A non-empty all-digit string is a single match whose value is the number it spells. */
  lemma AllDigitsOneRun(s: string)
    requires s != [] && AllDigits(s)
    ensures FindDigitRuns(s) == [s]
    ensures DigitRunSum(s) == DecimalValue(s)
  {
    AllDigitsPrefixIsWhole(s);
    assert s[|s|..] == [];
    assert s[..|s|] == s;
    assert [s][1..] == [];
    assert SumOfValues([s]) == DecimalValue(s) + SumOfValues([]);
  }

  /** The digit prefix of `s + [c] + t` stops at the separator `c` at the latest. */
  lemma {:induction false} PrefixStopsAtSeparator(s: string, c: char, t: string)
    requires !IsDigit(c)
    ensures DigitPrefixLength(s + [c] + t) == DigitPrefixLength(s)
  {
    if s != [] {
      assert (s + [c] + t)[1..] == s[1..] + [c] + t;
      if IsDigit(s[0]) {
        PrefixStopsAtSeparator(s[1..], c, t);
      }
    }
  }

  lemma {:induction false} SumOfValuesAppend(a: seq<string>, b: seq<string>)
    requires forall k :: 0 <= k < |a| ==> AllDigits(a[k])
    requires forall k :: 0 <= k < |b| ==> AllDigits(b[k])
    ensures SumOfValues(a + b) == SumOfValues(a) + SumOfValues(b)
  {
    if a != [] {
      assert (a + b)[1..] == a[1..] + b;
      SumOfValuesAppend(a[1..], b);
    } else {
      assert a + b == b;
    }
  }

  /**
   * Matching is split by any non-digit: the matches of `s + [c] + t` are those
   * of `s` followed by those of `t`.
   */
  lemma {:induction false} RunsSplitAtNonDigit(s: string, c: char, t: string)
    requires !IsDigit(c)
    ensures FindDigitRuns(s + [c] + t) == FindDigitRuns(s) + FindDigitRuns(t)
    decreases |s|
  {
    var u := s + [c] + t;
    if s == [] {
      assert u == [c] + t;
      assert u[1..] == t;
    } else if !IsDigit(s[0]) {
      assert u[1..] == s[1..] + [c] + t;
      RunsSplitAtNonDigit(s[1..], c, t);
    } else {
      var n := DigitPrefixLength(s);
      PrefixStopsAtSeparator(s, c, t);
      assert u[..n] == s[..n];
      assert u[n..] == s[n..] + [c] + t;
      RunsSplitAtNonDigit(s[n..], c, t);
      assert FindDigitRuns(u) == [s[..n]] + FindDigitRuns(s[n..] + [c] + t);
      assert FindDigitRuns(s) == [s[..n]] + FindDigitRuns(s[n..]);
    }
  }

  /** Hence the digit-run sum is additive across a non-digit separator. */
  lemma DigitRunSumAdditive(s: string, c: char, t: string)
    requires !IsDigit(c)
    ensures DigitRunSum(s + [c] + t) == DigitRunSum(s) + DigitRunSum(t)
  {
    RunsSplitAtNonDigit(s, c, t);
    SumOfValuesAppend(FindDigitRuns(s), FindDigitRuns(t));
  }

  lemma {:induction false} ConcatAppend(a: seq<string>, b: seq<string>)
    ensures Concat(a + b) == Concat(a) + Concat(b)
  {
    if a != [] {
      assert (a + b)[1..] == a[1..] + b;
      ConcatAppend(a[1..], b);
    } else {
      assert a + b == b;
    }
  }

  lemma {:induction false} DigitsOfAllDigits(s: string)
    requires AllDigits(s)
    ensures DigitsOf(s) == s
  {
    if s != [] {
      DigitsOfAllDigits(s[1..]);
    }
  }

  lemma {:induction false} DigitsOfAppend(a: string, b: string)
    ensures DigitsOf(a + b) == DigitsOf(a) + DigitsOf(b)
  {
    if a != [] {
      assert (a + b)[1..] == a[1..] + b;
      DigitsOfAppend(a[1..], b);
    } else {
      assert a + b == b;
    }
  }

  /**
   * No digit is lost or invented: the matches, put back together, are exactly
   * the digits of `s` in their original order.
   */
  lemma {:induction false} RunsCoverAllDigits(s: string)
    ensures Concat(FindDigitRuns(s)) == DigitsOf(s)
    decreases |s|
  {
    if s == [] {
    } else if !IsDigit(s[0]) {
      RunsCoverAllDigits(s[1..]);
    } else {
      var n := DigitPrefixLength(s);
      RunsCoverAllDigits(s[n..]);
      assert s == s[..n] + s[n..];
      DigitsOfAppend(s[..n], s[n..]);
      DigitsOfAllDigits(s[..n]);
      ConcatAppend([s[..n]], FindDigitRuns(s[n..]));
      assert Concat([s[..n]]) == s[..n] + Concat([]);
    }
  }
}
