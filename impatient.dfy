/**
 * impatient.py: `remove_waits` deletes the Ren'Py wait tags from a text, as
 * `re.sub(r"\{w=.+?\}", "", text)` does: scanning from the left, a match starts at `{w=`, takes
 * at least one more character other than a line break, and stops at the first `}` after that;
 * every match is deleted and the scan resumes right after it.
 */
module Impatient {
  import opened Wrappers
  import opened Text
  import opened Format
  import opened Transcribe
  import Vn

  // ---------------------------------------------------------------------------------------------
  // the pattern

  /** The texts `\{w=.+\}` matches in full: `{w=`, one or more characters other than a line break, `}`. */
  predicate IsWaitTagText(t: string) {
    && |t| >= 5 && OpensAt(t, 0) && t[|t| - 1] == '}'
    && forall k :: 3 <= k < |t| - 1 ==> t[k] != '\n'
  }

  /** `{w=` occurs in `s` at position `j`. */
  predicate OpensAt(s: string, j: nat) {
    j + 3 <= |s| && s[j] == '{' && s[j + 1] == 'w' && s[j + 2] == '='
  }

  /** The first `}` at or after `k`, when no line break comes before it. */
  function CloseFrom(s: string, k: nat): (r: Option<nat>)
    ensures r.Some? ==> k <= r.value < |s|
    decreases |s| - k
  {
    if k >= |s| then None
    else if s[k] == '}' then Some(k)
    else if s[k] == '\n' then None
    else CloseFrom(s, k + 1)
  }

  /** The length of the lazy match of `\{w=.+?\}` at the start of `s`, if there is one. */
  function TagLength(s: string): (r: Option<nat>)
    ensures r.Some? ==> 5 <= r.value <= |s| && OpensAt(s, 0)
  {
    if |s| >= 4 && OpensAt(s, 0) && s[3] != '\n' then
      match CloseFrom(s, 4)
      case Some(j) => Some(j + 1)
      case None => None
    else None
  }

  /** The closing brace found is the first one from `k`, with no line break before it; none is found only past a line break. */
  lemma {:induction false} CloseFromIs(s: string, k: nat)
    ensures CloseFrom(s, k).Some? ==>
      var j := CloseFrom(s, k).value;
      k <= j < |s| && s[j] == '}' && forall m :: k <= m < j ==> s[m] != '}' && s[m] != '\n'
    ensures CloseFrom(s, k).None? ==>
      forall j :: k <= j < |s| && s[j] == '}' ==> exists m :: k <= m < j && s[m] == '\n'
    decreases |s| - k
  {
    if k < |s| && s[k] != '}' && s[k] != '\n' {
      CloseFromIs(s, k + 1);
    }
  }

  /**
   * `TagLength` is the lazy match of `\{w=.+?\}`: the shortest prefix of `s` in the pattern's
   * language when there is one, and nothing when no prefix is in it.
   */
  lemma TagLengthIs(s: string)
    ensures TagLength(s).Some? ==>
      var n := TagLength(s).value;
      && 5 <= n <= |s| && IsWaitTagText(s[..n])
      && forall m :: 0 <= m < n ==> !IsWaitTagText(s[..m])
    ensures TagLength(s).None? ==> forall m :: 0 <= m <= |s| ==> !IsWaitTagText(s[..m])
  {
    CloseFromIs(s, 4);
    forall m | 0 <= m <= |s| && IsWaitTagText(s[..m])
      ensures TagLength(s).Some? && TagLength(s).value <= m
    {
      assert s[0] == s[..m][0] && s[1] == s[..m][1] && s[2] == s[..m][2] && s[3] == s[..m][3];
      assert s[m - 1] == s[..m][m - 1];
      forall j | 4 <= j < m - 1
        ensures s[j] != '\n'
      {
        assert s[j] == s[..m][j];
      }
    }
    if TagLength(s).Some? {
      var n := TagLength(s).value;
      var t := s[..n];
      forall k | 3 <= k < n - 1
        ensures t[k] != '\n'
      {
        assert t[k] == s[k];
      }
    }
  }

  // ---------------------------------------------------------------------------------------------
  // remove_waits

  /** `re.sub(r"\{w=.+?\}", "", text)`: the text without its wait tags. */
  function RemoveWaits(s: string): (r: string)
    ensures |r| <= |s|
    decreases |s|
  {
    if s == [] then []
    else
      match TagLength(s)
      case Some(n) => RemoveWaits(s[n..])
      case None => [s[0]] + RemoveWaits(s[1..])
  }

  /** No `{w=` occurs in the text. */
  predicate Clean(s: string) {
    forall j :: 0 <= j < |s| ==> !OpensAt(s, j)
  }

  /** A text in which no `{w=` occurs is returned unchanged. */
  lemma {:induction false} CleanUnchanged(s: string)
    requires Clean(s)
    ensures RemoveWaits(s) == s
    decreases |s|
  {
    if s != [] {
      assert !OpensAt(s, 0);
      assert Clean(s[1..]) by {
        forall j | 0 <= j < |s[1..]|
          ensures !OpensAt(s[1..], j)
        {
          assert !OpensAt(s, j + 1);
        }
      }
      CleanUnchanged(s[1..]);
    }
  }

  /** A bare `{w=}` has no character before a closing brace and is left alone, as is a tag broken by a line break. */
  lemma BareTagSurvives()
    ensures RemoveWaits("{w=}") == "{w=}"
    ensures RemoveWaits("{w=\n}") == "{w=\n}"
  {
    var bare, broken := "{w=}", "{w=\n}";
    assert TagLength(bare).None?;
    assert bare[1..] == "w=}" && TagLength("w=}").None?;
    assert TagLength("=}").None? && TagLength("}").None?;
    CleanUnchanged("w=}");
    assert OpensAt(broken, 0) && broken[3] == '\n';
    assert TagLength(broken).None?;
    assert broken[1..] == "w=\n}";
    CleanUnchanged("w=\n}");
  }

  /** Every tag is deleted, however many characters it holds. */
  lemma TagsDeleted()
    ensures RemoveWaits("a{w=0.5}b") == "ab"
    ensures RemoveWaits("{w=}}") == ""
  {
    var s := "a{w=0.5}b";
    assert s[1..] == "{w=0.5}b";
    assert CloseFrom("{w=0.5}b", 4) == Some(6);
    assert "{w=0.5}b"[7..] == "b";
    CleanUnchanged("b");
    assert CloseFrom("{w=}}", 4) == Some(4);
  }

  /**
   * One pass only: deleting a tag can join the text around it into a new tag, which is kept,
   * so removing the waits twice can remove more than removing them once.
   */
  lemma SinglePass()
    ensures RemoveWaits("{w{w=1}=2}") == "{w=2}"
    ensures RemoveWaits("{w=2}") == ""
  {
    var inner, after := "{w=" + "1" + "}", "=2}";
    WaitTagMatched("1", after);
    TagPrefix(inner, after);
    CleanUnchanged(after);
    var s := "{w" + (inner + after);
    assert s[2] == '{' && s[1..][0] == 'w';
    PlainPrefix("{w", inner + after);
    assert s == "{w{w=1}=2}" && "{w" + after == "{w=2}";
    TagAlone();
  }

  /** A tag that is the whole text leaves nothing. */
  lemma TagAlone()
    ensures RemoveWaits("{w=2}") == ""
  {
    WaitTagMatched("2", "");
    TagPrefix("{w=" + "2" + "}", "");
    assert "{w=" + "2" + "}" + "" == "{w=2}";
  }

  // ---------------------------------------------------------------------------------------------
  // removing the tags renpyify writes

  /** A text that begins with a character no straddling `{w=` can continue with: `{`, a space, or nothing. */
  predicate SafeAfter(next: string) {
    next == [] || (next[0] != '=' && next[0] != 'w')
  }

  /** No match starts inside a clean word followed by such a text. */
  lemma CleanWordBefore(w: string, next: string)
    requires Clean(w) && SafeAfter(next)
    ensures forall j :: 0 <= j < |w| ==> TagLength((w + next)[j..]).None?
  {
    forall j | 0 <= j < |w|
      ensures TagLength((w + next)[j..]).None?
    {
      var x := (w + next)[j..];
      if |x| >= 4 {
        if j + 3 <= |w| {
          assert !OpensAt(w, j);
        } else if j + 1 == |w| {
          assert x[1] == next[0];
        } else {
          assert x[2] == next[0];
        }
      }
    }
  }

  /** A part of the text where no match starts is kept as it is. */
  lemma {:induction false} PlainPrefix(w: string, rest: string)
    requires forall j :: 0 <= j < |w| ==> TagLength((w + rest)[j..]).None?
    ensures RemoveWaits(w + rest) == w + RemoveWaits(rest)
    decreases |w|
  {
    if w != [] {
      var s := w + rest;
      assert s[0..] == s;
      assert s[1..] == w[1..] + rest;
      forall j | 0 <= j < |w[1..]|
        ensures TagLength((w[1..] + rest)[j..]).None?
      {
        assert (w[1..] + rest)[j..] == s[j + 1..];
      }
      PlainPrefix(w[1..], rest);
      assert TagLength(s[0..]).None?;
      assert RemoveWaits(s) == [w[0]] + RemoveWaits(w[1..] + rest);
      assert w == [w[0]] + w[1..];
      ConcatAssoc([w[0]], w[1..], RemoveWaits(rest));
    } else {
      assert w + rest == rest;
    }
  }

  /** A match at the start of the text is deleted. */
  lemma TagPrefix(tag: string, rest: string)
    requires TagLength(tag + rest) == Some(|tag|)
    ensures RemoveWaits(tag + rest) == RemoveWaits(rest)
  {
    assert (tag + rest)[|tag|..] == rest;
  }

  /** The tag `wait_tag` writes is matched exactly, whatever follows it, when `str` writes a plain numeral. */
  lemma WaitTagMatched(numeral: string, rest: string)
    requires PlainNumeral(numeral)
    ensures TagLength("{w=" + numeral + "}" + rest) == Some(|numeral| + 4)
  {
    var s := "{w=" + numeral + "}" + rest;
    assert OpensAt(s, 0) && s[3] == numeral[0];
    forall m | 4 <= m < |numeral| + 3
      ensures s[m] != '}' && s[m] != '\n'
    {
      assert s[m] == numeral[m - 3];
    }
    CloseFromReaches(s, 4, |numeral| + 3);
  }

  /** Scanning from `k` over no brace and no line break reaches the brace at `j`. */
  lemma {:induction false} CloseFromReaches(s: string, k: nat, j: nat)
    requires k <= j < |s| && s[j] == '}'
    requires forall m :: k <= m < j ==> s[m] != '}' && s[m] != '\n'
    ensures CloseFrom(s, k) == Some(j)
    decreases j - k
  {
    if k < j {
      CloseFromReaches(s, k + 1, j);
    }
  }

  /** Each word followed by its tag, which may be empty. */
  function Tagged(words: seq<string>, tags: seq<string>): (r: seq<string>)
    requires |words| == |tags|
    ensures |r| == |words|
  {
    seq(|words|, k requires 0 <= k < |words| => words[k] + tags[k])
  }

  /** A tag as `wait_tag` writes it: nothing, or `{w=`, a plain numeral and `}`. */
  predicate WaitTagOrNothing(tag: string) {
    tag == "" || (|tag| >= 4 && OpensAt(tag, 0) && tag[|tag| - 1] == '}' && PlainNumeral(tag[3..|tag| - 1]))
  }

  /** A tag `wait_tag` writes is deleted, whatever follows it. */
  lemma TagThen(tag: string, rest: string)
    requires WaitTagOrNothing(tag)
    ensures RemoveWaits(tag + rest) == RemoveWaits(rest)
  {
    if tag != "" {
      var numeral := tag[3..|tag| - 1];
      assert tag == "{w=" + numeral + "}";
      WaitTagMatched(numeral, rest);
      TagPrefix(tag, rest);
    } else {
      assert tag + rest == rest;
    }
  }

  /** Removing the tags of one word and its tag at the head of a text. */
  lemma WordThenTag(w: string, tag: string, rest: string)
    requires Clean(w) && WaitTagOrNothing(tag) && SafeAfter(rest)
    ensures RemoveWaits(w + (tag + rest)) == w + RemoveWaits(rest)
  {
    var after := tag + rest;
    assert SafeAfter(after) by {
      if tag == "" {
        assert after == rest;
      } else {
        assert after[0] == '{';
      }
    }
    CleanWordBefore(w, after);
    PlainPrefix(w, after);
    TagThen(tag, rest);
  }

  /**
   * Removing the waits from words, each followed by a wait tag or nothing, joined by single
   * spaces gives the words joined by single spaces.
   */
  lemma {:induction false} RemoveWaitsJoin(words: seq<string>, tags: seq<string>)
    requires |words| == |tags|
    requires forall k :: 0 <= k < |words| ==> Clean(words[k]) && WaitTagOrNothing(tags[k])
    ensures RemoveWaits(Join(Tagged(words, tags), " ")) == Join(words, " ")
    decreases |words|
  {
    var pieces := Tagged(words, tags);
    if |words| == 1 {
      WordThenTag(words[0], tags[0], "");
      assert words[0] + (tags[0] + "") == pieces[0];
      assert words[0] + "" == words[0];
    } else if |words| >= 2 {
      var rest := Join(Tagged(words[1..], tags[1..]), " ");
      assert pieces[1..] == Tagged(words[1..], tags[1..]);
      RemoveWaitsJoin(words[1..], tags[1..]);
      assert pieces[0] == words[0] + tags[0];
      JoinStep(words[0], tags[0], rest, Join(words[1..], " "));
    }
  }

  /** One step of the join: a word, its tag, the space, and the rest. */
  lemma JoinStep(w: string, tag: string, rest: string, restWords: string)
    requires Clean(w) && WaitTagOrNothing(tag)
    requires RemoveWaits(rest) == restWords
    ensures RemoveWaits(w + tag + " " + rest) == w + " " + restWords
  {
    WordThenTag(w, tag, " " + rest);
    ConcatAssoc(w + tag, " ", rest);
    ConcatAssoc(w, tag, " " + rest);
    SpaceThen(rest);
    ConcatAssoc(w, " ", restWords);
  }

  /** The space `renpyify` joins with is kept. */
  lemma SpaceThen(rest: string)
    ensures RemoveWaits(" " + rest) == " " + RemoveWaits(rest)
  {
    var s := " " + rest;
    assert s[0] == ' ' && s[1..] == rest;
    assert TagLength(s).None?;
  }

  /** The tag `wait_tag` writes is nothing or `{w=`, `str` of the rounded pause, and `}`. */
  lemma WaitTagShape(f: Formats, seconds: real)
    requires ShowsPlainNumerals(f)
    ensures WaitTagOrNothing(Vn.WaitTag(f, seconds))
  {
    var tag := Vn.WaitTag(f, seconds);
    if tag != "" {
      var numeral := f.show(f.roundTo(seconds, 2));
      assert tag == "{w=" + numeral + "}";
      assert tag[3..|tag| - 1] == numeral;
    }
  }

  /** The raw text of every word of the transcript, in order. */
  function RawWords(ts: seq<WordTiming>): (r: seq<string>)
    ensures |r| == |ts| && forall k :: 0 <= k < |r| ==> r[k] == ts[k].word
  {
    seq(|ts|, k requires 0 <= k < |ts| => ts[k].word)
  }

  /**
   * `remove_waits` undoes `renpyify`: when `str` writes plain numerals and no word holds `{w=`,
   * removing the waits from the say statement of a transcript of two or more words gives its
   * words joined by single spaces; a shorter transcript renders as nothing.
   */
  lemma RemoveWaitsRenpyify(f: Formats, t: Transcription)
    requires ShowsPlainNumerals(f)
    requires forall k :: 0 <= k < |t.timings| ==> Clean(t.timings[k].word)
    ensures |t.timings| >= 2 ==> RemoveWaits(Vn.Renpyify(f, t)) == Join(RawWords(t.timings), " ")
    ensures |t.timings| < 2 ==> RemoveWaits(Vn.Renpyify(f, t)) == ""
  {
    var ts := t.timings;
    if |ts| >= 2 {
      var waits := WaitsOf(ts);
      var tags := seq(|ts|, k requires 0 <= k < |ts| => Vn.WaitTag(f, waits[k]));
      forall k | 0 <= k < |ts|
        ensures WaitTagOrNothing(tags[k])
      {
        WaitTagShape(f, waits[k]);
      }
      assert Vn.SayPieces(f, ts) == Tagged(RawWords(ts), tags);
      RemoveWaitsJoin(RawWords(ts), tags);
    }
  }
}
