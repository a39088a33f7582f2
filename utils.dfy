/**
 * stlr/utils.py: the float range generator `frange`, `truncate_path`, and the helpers the rest of
 * the code imports from it: `pairwise`, `read_leading_float` and `get_space_prefix` (defined by the
 * pattern `(\s*)([0-9]*\.?[0-9]+)` that astral.py matches delay lines with).
 */
module Utils {
  import opened Wrappers
  import opened Text

  // ---------------------------------------------------------------------------------------------
  // frange

  datatype RangeArgs = RangeArgs(start: real, stop: real, step: real)

  /** How `frange(start, stop=None, step=None)` fills in its optional arguments. */
  function FRangeArgs(start: real, stop: Option<real>, step: Option<real>): (r: RangeArgs)
    ensures stop.None? ==> r.start == 0.0 && r.stop == start
    ensures stop.Some? ==> r.start == start && r.stop == stop.value
    ensures step.None? ==> r.step == 1.0
    ensures step.Some? ==> r.step == step.value
  {
    var (first, last) := if stop.None? then (0.0, start) else (start, stop.value);
    RangeArgs(first, last, if step.None? then 1.0 else step.value)
  }

  /** Whether a generated value is still on the near side of `stop`, so that it is yielded. */
  predicate Before(value: real, stop: real, step: real) {
    (step > 0.0 ==> value < stop) && (step < 0.0 ==> value > stop)
  }

  /** The smallest integer at least `x`. */
  function Ceiling(x: real): (c: int)
    ensures x <= c as real < x + 1.0
  {
    -((-x).Floor)
  }

  /** The number of whole steps strictly short of `stop`, in closed form. */
  function StepsBelow(start: real, stop: real, step: real): nat
    requires step != 0.0
  {
    var x := (stop - start) / step;
    if x <= 0.0 then 0 else Ceiling(x)
  }

  lemma ScaledBefore(start: real, stop: real, step: real, n: nat)
    requires step != 0.0
    ensures Before(start + n as real * step, stop, step) <==> n as real < (stop - start) / step
  {
    var x := (stop - start) / step;
    assert x * step == stop - start;
    if step > 0.0 {
      assert (n as real - x) * step == start + n as real * step - stop;
      if n as real < x {
        assert (x - n as real) * step > 0.0;
      } else {
        assert (n as real - x) * step >= 0.0;
      }
    } else {
      assert (n as real - x) * step == start + n as real * step - stop;
      if n as real < x {
        assert (x - n as real) * step < 0.0;
      } else {
        assert (n as real - x) * step <= 0.0;
      }
    }
  }

  /** The n-th value is on the near side of `stop` exactly when n is below the closed form. */
  lemma BeforeBelow(start: real, stop: real, step: real, n: nat)
    requires step != 0.0
    ensures Before(NthValue(start, step, n), stop, step) <==> n < StepsBelow(start, stop, step)
  {
    ScaledBefore(start, stop, step, n);
  }

  /**
   * How many values `frange(start, stop, step)` yields from its n-th iteration on: the loop
   * yields the n-th value when it is on the near side of `stop`, and stops at the first that
   * is not.
   */
  function CountFrom(start: real, stop: real, step: real, n: nat): nat
    requires step != 0.0
    decreases StepsBelow(start, stop, step) - n
  {
    BeforeBelow(start, stop, step, n);
    if Before(NthValue(start, step, n), stop, step) then 1 + CountFrom(start, stop, step, n + 1) else 0
  }

  /** How many values `frange(start, stop, step)` yields. */
  function FRangeCount(start: real, stop: real, step: real): nat
    requires step != 0.0
  {
    CountFrom(start, stop, step, 0)
  }

  lemma {:induction false} CountFromIs(start: real, stop: real, step: real, n: nat)
    requires step != 0.0
    ensures CountFrom(start, stop, step, n) == if n < StepsBelow(start, stop, step) then StepsBelow(start, stop, step) - n else 0
    decreases StepsBelow(start, stop, step) - n
  {
    BeforeBelow(start, stop, step, n);
    if n < StepsBelow(start, stop, step) {
      CountFromIs(start, stop, step, n + 1);
    }
  }

  /** The n-th value is yielded exactly when n is below the count: the loop stops at the first value past `stop`. */
  lemma FRangeBefore(start: real, stop: real, step: real, n: nat)
    requires step != 0.0
    ensures Before(NthValue(start, step, n), stop, step) <==> n < FRangeCount(start, stop, step)
  {
    BeforeBelow(start, stop, step, n);
    CountFromIs(start, stop, step, 0);
  }

  /** The value `frange` computes on its n-th iteration. */
  function NthValue(start: real, step: real, n: int): real {
    start + n as real * step
  }

  lemma FRangeBeforeAll(start: real, stop: real, step: real)
    requires step != 0.0
    ensures forall n: nat :: Before(NthValue(start, step, n), stop, step) <==> n < FRangeCount(start, stop, step)
  {
    forall n: nat ensures Before(NthValue(start, step, n), stop, step) <==> n < FRangeCount(start, stop, step) {
      FRangeBefore(start, stop, step, n);
    }
  }

  /** The values `frange(start, stop, step)` yields, for a non-zero step. */
  function FRangeSeq(start: real, stop: real, step: real): (r: seq<real>)
    requires step != 0.0
    ensures |r| == FRangeCount(start, stop, step)
    ensures forall k :: 0 <= k < |r| ==> r[k] == NthValue(start, step, k)
  {
    seq(FRangeCount(start, stop, step), k => NthValue(start, step, k))
  }

  /**
   * The values of `frange(start, stop, step)`: `start + n * step` on the n-th iteration, every one
   * on the near side of `stop`, and the first value not yielded past or at `stop`; none at all
   * when `start` already is.
   */
  lemma FRangeSeqValues(start: real, stop: real, step: real)
    requires step != 0.0
    ensures var r := FRangeSeq(start, stop, step);
      && (forall k :: 0 <= k < |r| ==> r[k] == start + k as real * step)
      && (step > 0.0 ==> forall k :: 0 <= k < |r| ==> r[k] < stop)
      && (step < 0.0 ==> forall k :: 0 <= k < |r| ==> r[k] > stop)
    ensures FRangeSeqEnd(start, stop, step)
    ensures (step > 0.0 && start >= stop) || (step < 0.0 && start <= stop) ==> FRangeSeq(start, stop, step) == []
  {
    FRangeBeforeAll(start, stop, step);
    assert !Before(NthValue(start, step, FRangeCount(start, stop, step)), stop, step);
  }

  /** The first value `frange` does not yield is at or past `stop`. */
  predicate FRangeSeqEnd(start: real, stop: real, step: real)
    requires step != 0.0
  {
    var n := FRangeCount(start, stop, step);
    (step > 0.0 ==> start + n as real * step >= stop) && (step < 0.0 ==> start + n as real * step <= stop)
  }

  /**
   * `list(frange(start, stop, step))`. A zero step never stops (neither break condition can hold),
   * so it is excluded here.
   */
  method FRange(start: real, stop: real, step: real) returns (values: seq<real>)
    requires step != 0.0
    ensures values == FRangeSeq(start, stop, step)
  {
    ghost var all := FRangeSeq(start, stop, step);
    FRangeBeforeAll(start, stop, step);
    FRangeSeqValues(start, stop, step);
    values := [];
    var n: nat := 0;
    while true
      invariant n <= |all|
      invariant values == all[..n]
      decreases |all| - n
    {
      var current := start + n as real * step;
      if step > 0.0 && current >= stop {
        break;
      }
      if step < 0.0 && current <= stop {
        break;
      }
      assert Before(NthValue(start, step, n), stop, step);
      values := values + [current];
      n := n + 1;
    }
    assert !Before(NthValue(start, step, n), stop, step);
    assert n == |all|;
  }

  // ---------------------------------------------------------------------------------------------
  // truncate_path

  predicate OccursAt(s: string, pattern: string, i: nat) {
    i + |pattern| <= |s| && s[i..i + |pattern|] == pattern
  }

  /** The first position at or after `i` where `pattern` occurs. */
  function FindFrom(s: string, pattern: string, i: nat): (r: Option<nat>)
    requires i <= |s|
    ensures r.Some? ==> i <= r.value && OccursAt(s, pattern, r.value)
    ensures r.Some? ==> forall j :: i <= j < r.value ==> !OccursAt(s, pattern, j)
    ensures r.None? ==> forall j :: i <= j <= |s| ==> !OccursAt(s, pattern, j)
    decreases |s| - i
  {
    if OccursAt(s, pattern, i) then Some(i)
    else if i == |s| then None
    else FindFrom(s, pattern, i + 1)
  }

  /** The end of the run of characters other than '\n' starting at `k` (what `.*` matches). */
  function LineEnd(s: string, k: nat): (e: nat)
    requires k <= |s|
    ensures k <= e <= |s|
    ensures forall j :: k <= j < e ==> s[j] != '\n'
    ensures e < |s| ==> s[e] == '\n'
    decreases |s| - k
  {
    if k == |s| || s[k] == '\n' then k else LineEnd(s, k + 1)
  }

  /**
   * `truncate_path(path, highest_parent)`: the text matched by `(highest_parent.*)` searched in the
   * path string — from the first occurrence of `highest_parent` to the end of that line — or
   * ValueError when it does not occur.
   */
  function TruncatePath(path: string, highestParent: string): (r: Result<string>)
    ensures r.Err? <==> forall j :: 0 <= j <= |path| ==> !OccursAt(path, highestParent, j)
    ensures r.Err? ==> r.error == ValueError
    ensures r.Ok? ==> exists i :: 0 <= i <= |path| && OccursAt(path, highestParent, i)
                        && (forall j :: 0 <= j < i ==> !OccursAt(path, highestParent, j))
                        && r.value == path[i..LineEnd(path, i + |highestParent|)]
    ensures r.Ok? && '\n' !in path ==> |r.value| <= |path| && r.value == path[|path| - |r.value|..]
    ensures r.Ok? ==> |highestParent| <= |r.value| && r.value[..|highestParent|] == highestParent
  {
    match FindFrom(path, highestParent, 0)
    case None => Err(ValueError)
    case Some(i) =>
      var e := LineEnd(path, i + |highestParent|);
      TruncateParts(path, highestParent, i, e);
      assert OccursAt(path, highestParent, i) && forall j :: 0 <= j < i ==> !OccursAt(path, highestParent, j);
      Ok(path[i..e])
  }

  lemma TruncateParts(path: string, highestParent: string, i: nat, e: nat)
    requires OccursAt(path, highestParent, i) && e == LineEnd(path, i + |highestParent|)
    ensures |highestParent| <= |path[i..e]| && path[i..e][..|highestParent|] == highestParent
    ensures '\n' !in path ==> e == |path| && path[i..e] == path[|path| - |path[i..e]|..]
  {
    var n := |highestParent|;
    assert i + n <= e;
    assert forall k :: 0 <= k < n ==> path[i..e][..n][k] == path[i + k] == path[i..i + n][k];
    if '\n' !in path {
      assert e == |path|;
    }
  }

  // ---------------------------------------------------------------------------------------------
  // pairwise

  /** `pairwise(s)`: the consecutive pairs of `s`. */
  function Pairwise<T>(s: seq<T>): (r: seq<(T, T)>)
    ensures |r| == if s == [] then 0 else |s| - 1
    ensures forall i :: 0 <= i < |r| ==> r[i] == (s[i], s[i + 1])
  {
    if |s| < 2 then [] else [(s[0], s[1])] + Pairwise(s[1..])
  }

  // ---------------------------------------------------------------------------------------------
  // Delay lines: read_leading_float and get_space_prefix

  predicate IsDigit(c: char) { '0' <= c <= '9' }

  function AllSpace(s: string): bool {
    forall k :: 0 <= k < |s| ==> IsSpace(s[k])
  }

  /** The end of the run of whitespace characters starting at `i`. */
  function SpaceRun(s: string, i: nat): (e: nat)
    requires i <= |s|
    ensures i <= e <= |s|
    ensures e < |s| ==> !IsSpace(s[e])
    decreases |s| - i
  {
    if i < |s| && IsSpace(s[i]) then SpaceRun(s, i + 1) else i
  }

  lemma {:induction false} SpaceRunAll(s: string, i: nat)
    requires i <= |s|
    ensures forall k :: i <= k < SpaceRun(s, i) ==> IsSpace(s[k])
    decreases |s| - i
  {
    if i < |s| && IsSpace(s[i]) {
      SpaceRunAll(s, i + 1);
    }
  }

  /** The end of the run of decimal digits starting at `i`. */
  function DigitRun(s: string, i: nat): (e: nat)
    requires i <= |s|
    ensures i <= e <= |s|
    ensures e < |s| ==> !IsDigit(s[e])
    decreases |s| - i
  {
    if i < |s| && IsDigit(s[i]) then DigitRun(s, i + 1) else i
  }

  lemma {:induction false} DigitRunAll(s: string, i: nat)
    requires i <= |s|
    ensures forall k :: i <= k < DigitRun(s, i) ==> IsDigit(s[k])
    decreases |s| - i
  {
    if i < |s| && IsDigit(s[i]) {
      DigitRunAll(s, i + 1);
    }
  }

  /** A text `[0-9]*\.?[0-9]+` matches in full. */
  predicate IsDecimal(n: string) {
    && n != [] && IsDigit(n[|n| - 1])
    && (forall k :: 0 <= k < |n| ==> IsDigit(n[k]) || n[k] == '.')
    && (forall j, k :: 0 <= j < k < |n| && n[j] == '.' ==> n[k] != '.')
  }

  datatype DelayMatch = DelayMatch(prefix: string, number: string)

  /**
   * `re.match(r"(\s*)([0-9]*\.?[0-9]+)", line)`: the leading whitespace and the longest decimal
   * the pattern takes after it. The greedy `[0-9]*` backs off to a plain integer when the '.'
   * after the digits is not followed by a digit.
   */
  function MatchDelay(line: string): (r: Option<DelayMatch>)
  {
    var p := SpaceRun(line, 0);
    var d := DigitRun(line, p);
    if d < |line| && line[d] == '.' && DigitRun(line, d + 1) > d + 1 then
      var e := DigitRun(line, d + 1);
      Some(DelayMatch(line[..p], line[p..e]))
    else if d > p then
      Some(DelayMatch(line[..p], line[p..d]))
    else
      None
  }

  /** `re.match` is anchored: the match is the line's leading whitespace, then a non-empty number, as a prefix of the line. */
  lemma MatchDelayAnchored(line: string)
    requires MatchDelay(line).Some?
    ensures var m := MatchDelay(line).value;
      && m.number != [] && m.prefix == line[..SpaceRun(line, 0)]
      && |m.prefix| + |m.number| <= |line| && line[..|m.prefix| + |m.number|] == m.prefix + m.number
  {
    var p := SpaceRun(line, 0);
    var d := DigitRun(line, p);
    var e := if d < |line| && line[d] == '.' && DigitRun(line, d + 1) > d + 1 then DigitRun(line, d + 1) else d;
    assert line[..e] == line[..p] + line[p..e];
  }

  /** What the pattern takes as the number is a decimal. */
  lemma MatchDelayDecimal(line: string)
    requires MatchDelay(line).Some?
    ensures IsDecimal(MatchDelay(line).value.number)
  {
    var p := SpaceRun(line, 0);
    var d := DigitRun(line, p);
    DigitRunAll(line, p);
    if d < |line| && line[d] == '.' && DigitRun(line, d + 1) > d + 1 {
      DigitRunAll(line, d + 1);
      DecimalWithPoint(line, p, d, DigitRun(line, d + 1));
    } else {
      assert IsDecimal(line[p..d]);
    }
  }

  /**
   * What a match is: leading whitespace followed by a decimal, the longest one the pattern can
   * take there.
   */
  lemma MatchDelayIsLongest(line: string)
    requires MatchDelay(line).Some?
    ensures LongestMatch(line, MatchDelay(line).value)
  {
    var p := SpaceRun(line, 0);
    var d := DigitRun(line, p);
    if d < |line| && line[d] == '.' && DigitRun(line, d + 1) > d + 1 {
      var e := DigitRun(line, d + 1);
      LongestWithPoint(line, p, d, e);
      MatchWithPoint(line, p, d, e);
    } else {
      LongestWithoutPoint(line, p, d);
    }
  }

  /** `m` is leading whitespace of `line` followed by a number that nothing after it extends. */
  predicate LongestMatch(line: string, m: DelayMatch) {
    var n := |m.prefix| + |m.number|;
    && AllSpace(m.prefix)
    && n <= |line| && line[..n] == m.prefix + m.number
    && (n < |line| ==> !IsDigit(line[n]))
    && ('.' !in m.number && n + 1 < |line| ==> !(line[n] == '.' && IsDigit(line[n + 1])))
  }

  /** Leading whitespace ending at `p`, a number ending at `n`, and what does not extend it. */
  lemma MatchShape(line: string, p: nat, n: nat)
    requires p <= n <= |line| && p == SpaceRun(line, 0)
    requires n < |line| ==> !IsDigit(line[n])
    ensures var m := DelayMatch(line[..p], line[p..n]);
      && AllSpace(m.prefix)
      && |m.prefix| + |m.number| == n && line[..n] == m.prefix + m.number
  {
    SpaceRunAll(line, 0);
    assert forall k :: 0 <= k < p ==> line[..p][k] == line[k];
    assert line[..n] == line[..p] + line[p..n];
  }

  lemma MatchWithPoint(line: string, p: nat, d: nat, e: nat)
    requires p == SpaceRun(line, 0) && d == DigitRun(line, p)
    requires d < |line| && line[d] == '.' && e == DigitRun(line, d + 1) && e > d + 1
    ensures MatchDelay(line) == Some(DelayMatch(line[..p], line[p..e]))
  {
  }

  lemma LongestWithPoint(line: string, p: nat, d: nat, e: nat)
    requires p == SpaceRun(line, 0) && d == DigitRun(line, p)
    requires d < |line| && line[d] == '.' && e == DigitRun(line, d + 1) && e > d + 1
    ensures LongestMatch(line, DelayMatch(line[..p], line[p..e]))
  {
    assert line[p..e][d - p] == '.';
    MatchShape(line, p, e);
  }

  lemma LongestWithoutPoint(line: string, p: nat, d: nat)
    requires p == SpaceRun(line, 0) && d == DigitRun(line, p)
    requires !(d < |line| && line[d] == '.' && DigitRun(line, d + 1) > d + 1) && d > p
    ensures MatchDelay(line) == Some(DelayMatch(line[..p], line[p..d]))
    ensures LongestMatch(line, DelayMatch(line[..p], line[p..d]))
  {
    MatchShape(line, p, d);
  }

  /** No match exactly when neither a digit nor '.' and a digit follow the leading whitespace. */
  lemma MatchDelayNone(line: string)
    ensures MatchDelay(line).None? <==>
      var p := SpaceRun(line, 0);
      (p < |line| ==> !IsDigit(line[p])) && !(p + 1 < |line| && line[p] == '.' && IsDigit(line[p + 1]))
  {
    var p := SpaceRun(line, 0);
    if p + 1 < |line| && line[p] == '.' && IsDigit(line[p + 1]) {
      assert DigitRun(line, p) == p;
      assert DigitRun(line, p + 1) > p + 1;
    }
  }

  lemma DecimalWithPoint(line: string, p: nat, d: nat, e: nat)
    requires p <= d < e <= |line| && d + 1 < e && line[d] == '.'
    requires forall k :: p <= k < d ==> IsDigit(line[k])
    requires forall k :: d < k < e ==> IsDigit(line[k])
    ensures IsDecimal(line[p..e])
  {
    var n := line[p..e];
    assert forall k :: 0 <= k < |n| ==> n[k] == line[p + k];
    assert forall k :: 0 <= k < |n| && k != d - p ==> IsDigit(n[k]);
  }

  /** The value of a digit (0 for any other character, which no matched decimal holds). */
  function DigitValue(c: char): nat {
    if IsDigit(c) then c as int - '0' as int else 0
  }

  function DigitsValue(ds: string): nat {
    if ds == [] then 0 else 10 * DigitsValue(ds[..|ds| - 1]) + DigitValue(ds[|ds| - 1])
  }

  /** The value of the digits after a decimal point: each digit counts a tenth of what the one before it counts. */
  function FractionValue(ds: string): (v: real)
    ensures 0.0 <= v < 1.0
  {
    if ds == [] then 0.0 else (DigitValue(ds[0]) as real + FractionValue(ds[1..])) / 10.0
  }

  /** `float(n)` of a matched decimal, exactly (binary rounding is not modelled). */
  function DecimalValue(n: string): (v: real)
    ensures v >= 0.0
  {
    var dot := DigitRun(n, 0);
    if dot == |n| then DigitsValue(n) as real
    else DigitsValue(n[..dot]) as real + FractionValue(n[dot + 1..])
  }

  /** `read_leading_float(line)`: the delay a line starts with, if any. */
  function LeadingFloat(line: string): (r: Option<real>)
    ensures r.Some? <==> MatchDelay(line).Some?
    ensures r.Some? ==> r.value >= 0.0
  {
    match MatchDelay(line)
    case None => None
    case Some(m) => Some(DecimalValue(m.number))
  }

  /** `get_space_prefix(line)`: the leading whitespace of a line. */
  function SpacePrefix(line: string): (r: string)
    ensures AllSpace(r) && |r| <= |line| && r == line[..|r|]
    ensures |r| < |line| ==> !IsSpace(line[|r|])
  {
    SpaceRunAll(line, 0);
    assert forall k :: 0 <= k < SpaceRun(line, 0) ==> line[..SpaceRun(line, 0)][k] == line[k];
    line[..SpaceRun(line, 0)]
  }

  /** The delay a line contributes to an animation's length (0 for a line without one). */
  function Delay(line: string): real {
    LeadingFloat(line).GetOr(0.0)
  }

  /** The sum of the leading delays of the lines. */
  function TotalDelay(lines: seq<string>): (r: real)
    ensures r >= 0.0
  {
    if lines == [] then 0.0 else Delay(lines[0]) + TotalDelay(lines[1..])
  }

  lemma {:induction false} TotalDelayAppend(lines: seq<string>, line: string)
    ensures TotalDelay(lines + [line]) == TotalDelay(lines) + Delay(line)
  {
    if lines != [] {
      assert (lines + [line])[1..] == lines[1..] + [line];
      TotalDelayAppend(lines[1..], line);
    }
  }

  /** Lines without a leading delay add nothing; every delay is non-negative. */
  lemma {:induction false} TotalDelayNonNegative(lines: seq<string>)
    ensures TotalDelay(lines) >= 0.0
    ensures (forall k :: 0 <= k < |lines| ==> LeadingFloat(lines[k]).None?) ==> TotalDelay(lines) == 0.0
  {
    if lines != [] {
      TotalDelayNonNegative(lines[1..]);
    }
  }

  lemma TotalDelayPair(lines: seq<string>, a: string, b: string)
    ensures TotalDelay(lines + [a, b]) == TotalDelay(lines) + Delay(a) + Delay(b)
  {
    assert lines + [a, b] == (lines + [a]) + [b];
    TotalDelayAppend(lines, a);
    TotalDelayAppend(lines + [a], b);
  }

  lemma {:induction false} TotalDelayConcat(a: seq<string>, b: seq<string>)
    ensures TotalDelay(a + b) == TotalDelay(a) + TotalDelay(b)
  {
    if a == [] {
      assert a + b == b;
    } else {
      assert (a + b)[1..] == a[1..] + b;
      TotalDelayConcat(a[1..], b);
    }
  }

  lemma {:induction false} SpaceRunIs(s: string, i: nat, j: nat)
    requires i <= j <= |s|
    requires forall k :: i <= k < j ==> IsSpace(s[k])
    requires j < |s| ==> !IsSpace(s[j])
    ensures SpaceRun(s, i) == j
    decreases j - i
  {
    if i < j {
      SpaceRunIs(s, i + 1, j);
    }
  }

  lemma {:induction false} DigitRunIs(s: string, i: nat, j: nat)
    requires i <= j <= |s|
    requires forall k :: i <= k < j ==> IsDigit(s[k])
    requires j < |s| ==> !IsDigit(s[j])
    ensures DigitRun(s, i) == j
    decreases j - i
  {
    if i < j {
      DigitRunIs(s, i + 1, j);
    }
  }

  /**
   * A line without a delay: whitespace, then a character that is neither a digit nor a '.'
   * (an image line, a comment, an `image` statement).
   */
  lemma NoDelay(line: string, p: nat)
    requires p < |line| && AllSpace(line[..p])
    requires !IsSpace(line[p]) && !IsDigit(line[p]) && line[p] != '.'
    ensures LeadingFloat(line) == None && Delay(line) == 0.0
  {
    assert forall k :: 0 <= k < p ==> line[..p][k] == line[k];
    SpaceRunIs(line, 0, p);
    MatchDelayNone(line);
  }

  /** The text a real is written as reads back as that real. */
  predicate RendersExactly(text: string, x: real) {
    IsDecimal(text) && DecimalValue(text) == x
  }

  /**
   * Whitespace, a decimal, then nothing that could extend the decimal: the line's delay is that
   * decimal and its prefix is that whitespace.
   */
  lemma MatchDelayOf(prefix: string, number: string, rest: string)
    requires AllSpace(prefix) && IsDecimal(number)
    requires rest == [] || (!IsDigit(rest[0]) && rest[0] != '.')
    ensures MatchDelay(prefix + number + rest) == Some(DelayMatch(prefix, number))
    ensures LeadingFloat(prefix + number + rest) == Some(DecimalValue(number))
    ensures SpacePrefix(prefix + number + rest) == prefix
  {
    var line := prefix + number + rest;
    if '.' in number {
      var q :| 0 <= q < |number| && number[q] == '.';
      MatchOfPoint(prefix, number, rest, q);
    } else {
      MatchOfInteger(prefix, number, rest);
    }
    assert SpacePrefix(line) == line[..|prefix|];
  }

  lemma MatchOfPoint(prefix: string, number: string, rest: string, q: nat)
    requires AllSpace(prefix) && IsDecimal(number) && q < |number| && number[q] == '.'
    requires rest == [] || (!IsDigit(rest[0]) && rest[0] != '.')
    ensures var line := prefix + number + rest;
      SpaceRun(line, 0) == |prefix| && line[..|prefix|] == prefix
      && MatchDelay(line) == Some(DelayMatch(prefix, number))
  {
    var line := prefix + number + rest;
    var p, e := |prefix|, |prefix| + |number|;
    LineParts(prefix, number, rest);
    SpaceRunIs(line, 0, p);
    PointParts(number, q);
    DigitRunIs(line, p, p + q);
    DigitRunIs(line, p + q + 1, e);
    MatchDelayWithPoint(line, p, p + q, e);
  }

  lemma MatchOfInteger(prefix: string, number: string, rest: string)
    requires AllSpace(prefix) && IsDecimal(number) && '.' !in number
    requires rest == [] || (!IsDigit(rest[0]) && rest[0] != '.')
    ensures var line := prefix + number + rest;
      SpaceRun(line, 0) == |prefix| && line[..|prefix|] == prefix
      && MatchDelay(line) == Some(DelayMatch(prefix, number))
  {
    var line := prefix + number + rest;
    var p, e := |prefix|, |prefix| + |number|;
    LineParts(prefix, number, rest);
    SpaceRunIs(line, 0, p);
    assert forall k :: 0 <= k < |number| ==> IsDigit(number[k]);
    DigitRunIs(line, p, e);
    MatchDelayWithoutPoint(line, p, e);
  }

  lemma LineParts(prefix: string, number: string, rest: string)
    requires AllSpace(prefix) && IsDecimal(number)
    ensures var line, p, e := prefix + number + rest, |prefix|, |prefix| + |number|;
      && (forall k :: p <= k < e ==> line[k] == number[k - p])
      && (forall k :: 0 <= k < p ==> IsSpace(line[k]))
      && !IsSpace(line[p])
      && (e < |line| ==> line[e] == rest[0])
      && line[..p] == prefix && line[p..e] == number
  {
  }

  lemma PointParts(number: string, q: nat)
    requires IsDecimal(number) && q < |number| && number[q] == '.'
    ensures q < |number| - 1
    ensures forall k :: 0 <= k < |number| && k != q ==> IsDigit(number[k])
  {
  }

  lemma MatchDelayWithoutPoint(line: string, p: nat, e: nat)
    requires SpaceRun(line, 0) == p && p < e <= |line| && DigitRun(line, p) == e
    requires e < |line| ==> line[e] != '.'
    ensures MatchDelay(line) == Some(DelayMatch(line[..p], line[p..e]))
  {
  }

  lemma MatchDelayWithPoint(line: string, p: nat, d: nat, e: nat)
    requires SpaceRun(line, 0) == p && p <= d < |line| && DigitRun(line, p) == d
    requires line[d] == '.' && d + 1 < e <= |line| && DigitRun(line, d + 1) == e
    ensures MatchDelay(line) == Some(DelayMatch(line[..p], line[p..e]))
  {
  }

  lemma MatchDelayOfValue(prefix: string, number: string, rest: string, x: real)
    requires AllSpace(prefix) && RendersExactly(number, x)
    requires rest == [] || (!IsDigit(rest[0]) && rest[0] != '.')
    ensures Delay(prefix + number + rest) == x
  {
    MatchDelayOf(prefix, number, rest);
  }
}
