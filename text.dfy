/**
 * Python string operations the modelled code relies on: `str.isspace`, `str.split()` with no
 * separator, `sep.join`, `str.strip`/`str.rstrip` with no argument, and `str.splitlines`.
 */
module Text {

  /** Python's `str.isspace` for one character (also what `\s` matches in a `str` pattern). */
  predicate IsSpace(c: char) {
    || c == ' '
    || '\t' <= c <= '\r'              // \t \n \v \f \r
    || '\U{1c}' <= c <= '\U{1f}'      // file, group, record and unit separators
    || c == '\U{85}' || c == '\U{a0}' || c == '\U{1680}'
    || '\U{2000}' <= c <= '\U{200a}'
    || c == '\U{2028}' || c == '\U{2029}' || c == '\U{202f}' || c == '\U{205f}' || c == '\U{3000}'
  }

  predicate NoSpace(s: string) {
    forall k :: 0 <= k < |s| ==> !IsSpace(s[k])
  }

  /** A non-empty run of non-whitespace characters: what `str.split()` can return as one item. */
  predicate IsWord(w: string) {
    w != [] && NoSpace(w)
  }

  /** Length of the leading run of non-whitespace characters. */
  function RunLength(s: string): (n: nat)
    ensures n <= |s|
    ensures NoSpace(s[..n])
    ensures n < |s| ==> IsSpace(s[n])
    ensures s != [] && !IsSpace(s[0]) ==> n >= 1
  {
    if s == [] || IsSpace(s[0]) then 0 else 1 + RunLength(s[1..])
  }

  /** `s.split()`: the maximal runs of non-whitespace characters, in order. */
  function Split(s: string): (r: seq<string>)
    ensures forall k :: 0 <= k < |r| ==> IsWord(r[k])
    decreases |s|
  {
    if s == [] then []
    else if IsSpace(s[0]) then Split(s[1..])
    else
      var n := RunLength(s);
      [s[..n]] + Split(s[n..])
  }

  /** `sep.join(xs)`. */
  function Join(xs: seq<string>, sep: string): string {
    if |xs| == 0 then ""
    else if |xs| == 1 then xs[0]
    else xs[0] + sep + Join(xs[1..], sep)
  }

  function Concat<T>(xss: seq<seq<T>>): seq<T> {
    if xss == [] then [] else xss[0] + Concat(xss[1..])
  }

  lemma ConcatAppend<T>(xss: seq<seq<T>>, xs: seq<T>)
    ensures Concat(xss + [xs]) == Concat(xss) + xs
  {
    if xss != [] {
      assert (xss + [xs])[1..] == xss[1..] + [xs];
      ConcatAppend(xss[1..], xs);
    }
  }

  /** `s.lstrip()`: drops the leading whitespace. */
  function LStrip(s: string): (r: string)
    ensures |r| <= |s| && r == s[|s| - |r|..]
    ensures r == [] || !IsSpace(r[0])
    ensures forall k :: 0 <= k < |s| - |r| ==> IsSpace(s[k])
  {
    if s != [] && IsSpace(s[0]) then LStrip(s[1..]) else s
  }

  /** `s.rstrip()`: drops the trailing whitespace. */
  function RStrip(s: string): (r: string)
    ensures |r| <= |s| && r == s[..|r|]
    ensures r == [] || !IsSpace(r[|r| - 1])
    ensures forall k :: |r| <= k < |s| ==> IsSpace(s[k])
  {
    if s != [] && IsSpace(s[|s| - 1]) then RStrip(s[..|s| - 1]) else s
  }

  /** `s.strip()`. */
  function Strip(s: string): string {
    RStrip(LStrip(s))
  }

  /** The characters `str.splitlines` breaks lines at. */
  predicate IsLineBreak(c: char) {
    || c == '\n' || c == '\r' || c == '\U{0b}' || c == '\U{0c}'
    || '\U{1c}' <= c <= '\U{1e}'
    || c == '\U{85}' || c == '\U{2028}' || c == '\U{2029}'
  }

  predicate NoLineBreak(s: string) {
    forall k :: 0 <= k < |s| ==> !IsLineBreak(s[k])
  }

  /** Length of the leading run of characters that are not line breaks. */
  function LineLength(s: string): (n: nat)
    ensures n <= |s|
    ensures NoLineBreak(s[..n])
    ensures n < |s| ==> IsLineBreak(s[n])
  {
    if s == [] || IsLineBreak(s[0]) then 0 else 1 + LineLength(s[1..])
  }

  /**
   * `s.splitlines()`: the lines of `s` without their line breaks; "\r\n" counts as one break and
   * a final line break does not start another (empty) line.
   */
  function SplitLines(s: string): (r: seq<string>)
    ensures forall k :: 0 <= k < |r| ==> NoLineBreak(r[k])
    ensures r == [] <==> s == []
    decreases |s|
  {
    if s == [] then []
    else
      var n := LineLength(s);
      if n == |s| then [s]
      else
        var width := if s[n] == '\r' && n + 1 < |s| && s[n + 1] == '\n' then 2 else 1;
        [s[..n]] + SplitLines(s[n + width..])
  }

  lemma {:induction false} LineLengthOf(a: string, rest: string)
    requires NoLineBreak(a)
    requires rest == [] || IsLineBreak(rest[0])
    ensures LineLength(a + rest) == |a|
    decreases |a|
  {
    if a == [] {
      assert a + rest == rest;
    } else {
      assert (a + rest)[0] == a[0] && (a + rest)[1..] == a[1..] + rest;
      LineLengthOf(a[1..], rest);
    }
  }

  /** Non-empty lines without line breaks, joined by "\n", split back into the same lines. */
  lemma {:induction false} SplitLinesJoin(lines: seq<string>)
    requires forall k :: 0 <= k < |lines| ==> lines[k] != [] && NoLineBreak(lines[k])
    ensures SplitLines(Join(lines, "\n")) == lines
  {
    if |lines| == 1 {
      LineLengthOf(lines[0], []);
      assert lines[0] + [] == lines[0];
    } else if |lines| > 1 {
      var a, rest := lines[0], Join(lines[1..], "\n");
      var s := a + "\n" + rest;
      assert Join(lines, "\n") == s;
      LineLengthOf(a, "\n" + rest);
      assert s == a + ("\n" + rest);
      var n := LineLength(s);
      assert n == |a| && s[n] == '\n';
      assert s[..n] == a && s[n + 1..] == rest;
      assert SplitLines(s) == [a] + SplitLines(rest);
      SplitLinesJoin(lines[1..]);
      assert [lines[0]] + lines[1..] == lines;
    }
  }

  lemma {:induction false} RunLengthAppend(a: string, t: string)
    requires RunLength(a) < |a| || (t != [] && IsSpace(t[0]))
    ensures RunLength(a + t) == RunLength(a)
    decreases |a|
  {
    if a == [] {
      assert a + t == t;
    } else if !IsSpace(a[0]) {
      assert (a + t)[1..] == a[1..] + t;
      RunLengthAppend(a[1..], t);
    }
  }

  /** Splitting at a whitespace character splits the two sides independently. */
  lemma {:induction false} SplitAtSpace(a: string, c: char, b: string)
    requires IsSpace(c)
    ensures Split(a + [c] + b) == Split(a) + Split(b)
    decreases |a|
  {
    var s := a + [c] + b;
    if a == [] {
      assert s[1..] == b;
    } else if IsSpace(a[0]) {
      assert s[1..] == a[1..] + [c] + b;
      SplitAtSpace(a[1..], c, b);
    } else {
      SplitAtSpace(a[RunLength(a)..], c, b);
      SplitAtSpaceWord(a, c, b);
    }
  }

  /** The step of `SplitAtSpace` past a leading word, given the split of what follows it. */
  lemma SplitAtSpaceWord(a: string, c: char, b: string)
    requires IsSpace(c) && a != [] && !IsSpace(a[0])
    requires Split(a[RunLength(a)..] + [c] + b) == Split(a[RunLength(a)..]) + Split(b)
    ensures Split(a + [c] + b) == Split(a) + Split(b)
  {
    var n := RunLength(a);
    var w, r := a[..n], a[n..];
    TakeDrop(a, n);
    SplitWordThen(w, r);
    ConcatAssoc(w, r, [c]);
    ConcatAssoc(w, r + [c], b);
    assert (r + [c] + b)[0] == if r == [] then c else r[0];
    SplitWordThen(w, r + [c] + b);
    ConcatAssoc([w], Split(r), Split(b));
  }

  lemma TakeDrop<T>(s: seq<T>, n: nat)
    requires n <= |s|
    ensures s == s[..n] + s[n..]
  {
  }

  lemma TakeSnoc<T>(s: seq<T>, n: nat)
    requires n < |s|
    ensures s[..n + 1] == s[..n] + [s[n]]
  {
  }

  lemma ConcatAssoc<T>(x: seq<T>, y: seq<T>, z: seq<T>)
    ensures x + (y + z) == x + y + z
  {
  }

  lemma {:induction false} RunLengthOf(w: string, rest: string)
    requires NoSpace(w) && (rest == [] || IsSpace(rest[0]))
    ensures RunLength(w + rest) == |w|
    decreases |w|
  {
    if w == [] {
      assert w + rest == rest;
    } else {
      assert (w + rest)[0] == w[0] && (w + rest)[1..] == w[1..] + rest;
      assert NoSpace(w[1..]) by {
        assert forall k :: 0 <= k < |w| - 1 ==> w[1..][k] == w[k + 1];
      }
      RunLengthOf(w[1..], rest);
    }
  }

  /** A word followed by whitespace (or nothing) splits off as the first word. */
  lemma SplitWordThen(w: string, rest: string)
    requires IsWord(w) && (rest == [] || IsSpace(rest[0]))
    ensures Split(w + rest) == [w] + Split(rest)
  {
    var s := w + rest;
    RunLengthOf(w, rest);
    assert s[0] == w[0] && s[..|w|] == w && s[|w|..] == rest;
  }

  lemma SplitOfWord(w: string)
    requires IsWord(w)
    ensures Split(w) == [w]
  {
    var n := RunLength(w);
    assert n == |w|;
    assert w[..n] == w;
    assert w[n..] == [];
  }

  /** Splitting words joined by single spaces gives the words back. */
  lemma {:induction false} SplitJoin(ws: seq<string>)
    requires forall k :: 0 <= k < |ws| ==> IsWord(ws[k])
    ensures Split(Join(ws, " ")) == ws
  {
    if |ws| == 0 {
    } else if |ws| == 1 {
      SplitOfWord(ws[0]);
    } else {
      SplitAtSpace(ws[0], ' ', Join(ws[1..], " "));
      SplitOfWord(ws[0]);
      SplitJoin(ws[1..]);
    }
  }
}
