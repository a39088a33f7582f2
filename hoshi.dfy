/**
 * stlr/hoshi.py: reconciling whisper's transcript (good words, no usable timings) with vosk's
 * word timings (usable timings, worse words). Equal word counts pair them up segment by segment;
 * otherwise the "simple" mode keeps vosk's result, and the assisted mode walks the rows the user
 * edited, each a disagreement (whisper and vosk phrases, with '/' marking sub-groups) followed by
 * a matching phrase, consuming two shared cursors: whisper's words and vosk's timings.
 */
module Hoshi {
  import opened Wrappers
  import opened Text
  import opened Streams
  import opened Transcribe

  // ---------------------------------------------------------------------------------------------
  // the equal-count path

  /** `len(segment["text"].split())` of every segment. */
  function SegmentCounts(segments: seq<WhisperSegment>): (r: seq<nat>)
    ensures |r| == |segments| && forall k :: 0 <= k < |r| ==> r[k] == |Split(segments[k].text)|
  {
    seq(|segments|, k requires 0 <= k < |segments| => |Split(segments[k].text)|)
  }

  /**
   * `_reconcile_equal_simple`: for each whisper segment, `zip(vosk_words, whisper_words)` over
   * one shared iterator of vosk's timings, keeping vosk's words and times.
   */
  method ReconcileEqualSimple(whisper: WhisperResult, vosk: seq<WordTiming>) returns (t: Transcription)
    ensures t.model.None?
    ensures t.timings == Concat(ZipAheadGroups(SegmentCounts(whisper.segments), vosk))
  {
    var counts := SegmentCounts(whisper.segments);
    var voskWords := new Stream(vosk);
    var timings: seq<WordTiming> := [];
    ghost var whole := Concat(ZipAheadGroups(counts, vosk));
    assert counts[0..] == counts;
    for i := 0 to |whisper.segments|
      invariant voskWords.Valid() && voskWords.items == vosk
      invariant timings + Concat(ZipAheadGroups(counts[i..], voskWords.Rest())) == whole
    {
      var n := counts[i];
      ghost var before := voskWords.Rest();
      var taken := voskWords.ZipAhead(n);
      ZipAheadAdvance(counts, i, before, timings, taken, voskWords.Rest(), whole);
      timings := timings + taken;
    }
    assert timings + [] == timings;
    t := Transcription(timings, None);
  }

  /** As written, a segment that runs out of words while timings remain loses the next timing. */
  lemma EqualSimpleLosesTimings(whisper: WhisperResult, vosk: seq<WordTiming>)
    requires whisper.segments != [] && |Split(whisper.segments[0].text)| < |vosk|
    ensures |Concat(ZipAheadGroups(SegmentCounts(whisper.segments), vosk))| < |vosk|
  {
    ZipAheadLoses(SegmentCounts(whisper.segments), vosk);
  }

  /** The text "a b" then "c d" with timings v0..v3: the third timing is dropped, "d" gets v3. */
  lemma EqualSimpleExample(v: seq<WordTiming>)
    requires |v| == 4
    ensures Concat(ZipAheadGroups([2, 2], v)) == [v[0], v[1], v[3]]
  {
    var counts: seq<nat> := [2, 2];
    assert counts[1..] == [2];
    assert ZipAheadGroups(counts[1..], v[3..]) == [v[3..][..1]] + ZipAheadGroups([], v[4..]);
    assert v[3..][..1] == [v[3]];
    assert v[..2] == [v[0], v[1]];
    assert ZipAheadGroups(counts, v) == [[v[0], v[1]], [v[3]]];
    assert Concat([[v[3]]]) == [v[3]] + Concat<WordTiming>([]);
  }

  /**
   * The evidently intended equal-count path: `zip(whisper_words, vosk_words)`, which takes as
   * many timings as the segment has words and drops none.
   */
  method ReconcileEqualPositional(whisper: WhisperResult, vosk: seq<WordTiming>) returns (t: Transcription)
    ensures t.model.None?
    ensures t.timings == Concat(InOrderGroups(SegmentCounts(whisper.segments), vosk))
  {
    var counts := SegmentCounts(whisper.segments);
    var voskWords := new Stream(vosk);
    var timings: seq<WordTiming> := [];
    ghost var whole := Concat(InOrderGroups(counts, vosk));
    assert counts[0..] == counts;
    for i := 0 to |whisper.segments|
      invariant voskWords.Valid() && voskWords.items == vosk
      invariant timings + Concat(InOrderGroups(counts[i..], voskWords.Rest())) == whole
    {
      var n := counts[i];
      ghost var before := voskWords.Rest();
      var taken := voskWords.ZipBehind(n);
      InOrderAdvance(counts, i, before, timings, taken, voskWords.Rest(), whole);
      timings := timings + taken;
    }
    assert timings + [] == timings;
    t := Transcription(timings, None);
  }

  /** When the segments hold as many words as vosk has timings, every timing is used, in order. */
  lemma PositionalKeepsAllTimings(whisper: WhisperResult, vosk: seq<WordTiming>)
    requires SumNat(SegmentCounts(whisper.segments)) == |vosk|
    ensures Concat(InOrderGroups(SegmentCounts(whisper.segments), vosk)) == vosk
  {
    InOrderIsPrefix(SegmentCounts(whisper.segments), vosk);
  }

  // ---------------------------------------------------------------------------------------------
  // the assisted pass

  /** One row of the assistant: the whisper phrase, the vosk phrase, and the matching phrase. */
  datatype Row = Row(whisper: string, vosk: string, matching: string)

  /** The texts of the assistant's entry widgets, column by column: whisper, vosk and matching. */
  datatype Columns = Columns(whisper: seq<string>, vosk: seq<string>, matching: seq<string>)

  /** The length of the shortest column. */
  function Shortest(cols: Columns): nat {
    Min(|cols.whisper|, Min(|cols.vosk|, |cols.matching|))
  }

  /** `_iter_rows`: `zip` of the three columns, so the rows stop at the end of the shortest column. */
  function IterRows(cols: Columns): (r: seq<Row>)
    ensures |r| == Shortest(cols) && |r| <= |cols.whisper| && |r| <= |cols.vosk| && |r| <= |cols.matching|
    ensures forall k :: 0 <= k < |r| ==> r[k] == Row(cols.whisper[k], cols.vosk[k], cols.matching[k])
  {
    seq(Shortest(cols), k requires 0 <= k < Shortest(cols) => Row(cols.whisper[k], cols.vosk[k], cols.matching[k]))
  }

  /** Entries of a column past the end of the shortest column never reach a row. */
  lemma IterRowsSurplus(cols: Columns)
    ensures var n := Shortest(cols);
      IterRows(cols) == IterRows(Columns(cols.whisper[..n], cols.vosk[..n], cols.matching[..n]))
  {
    var n := Shortest(cols);
    var cut := Columns(cols.whisper[..n], cols.vosk[..n], cols.matching[..n]);
    assert Shortest(cut) == n;
    forall k | 0 <= k < n
      ensures IterRows(cols)[k] == IterRows(cut)[k]
    {
      assert cut.whisper[k] == cols.whisper[k] && cut.vosk[k] == cols.vosk[k] && cut.matching[k] == cols.matching[k];
    }
  }

  function CountChar(s: string, c: char): nat {
    if s == [] then 0 else (if s[0] == c then 1 else 0) + CountChar(s[1..], c)
  }

  /**
   * The pieces that splitting a phrase at each slash and the whitespace around it (`re.split`
   * in stlr/hoshi.py:70-71) gives, here keeping that whitespace, which `str.split` ignores: every
   * piece has the same words.
   */
  function SlashPieces(s: string): (r: seq<string>)
    ensures |r| == CountChar(s, '/') + 1
    ensures forall k :: 0 <= k < |r| ==> '/' !in r[k]
  {
    if s == [] then [""]
    else if s[0] == '/' then [""] + SlashPieces(s[1..])
    else
      var rest := SlashPieces(s[1..]);
      [[s[0]] + rest[0]] + rest[1..]
  }

  /** The pieces, joined back with slashes, are the phrase. */
  lemma {:induction false} SlashPiecesJoin(s: string)
    ensures Join(SlashPieces(s), "/") == s
  {
    if s != [] {
      SlashPiecesJoin(s[1..]);
      var rest := SlashPieces(s[1..]);
      if s[0] == '/' {
        assert s == "/" + s[1..];
      } else if |rest| == 1 {
        assert s == [s[0]] + s[1..];
      } else {
        assert Join(rest, "/") == rest[0] + "/" + Join(rest[1..], "/");
        assert [[s[0]] + rest[0]] + rest[1..] == [[s[0]] + rest[0]] + rest[1..];
        assert s == [s[0]] + Join(rest, "/");
      }
    }
  }

  /** The number of words of each piece. */
  function WordCounts(pieces: seq<string>): (r: seq<nat>)
    ensures |r| == |pieces| && forall k :: 0 <= k < |r| ==> r[k] == |Split(pieces[k])|
  {
    seq(|pieces|, k requires 0 <= k < |pieces| => |Split(pieces[k])|)
  }

  /** The two shared iterators: whisper's words still to use, vosk's timings still to use. */
  datatype Cursor = Cursor(text: seq<string>, timing: seq<WordTiming>)

  /**
   * One sub-group of a disagreement: `n_whisper` words of text are taken; if the vosk side has
   * no words nothing is emitted and no timing is used; otherwise `n_vosk` timings are taken and
   * one word is emitted spanning them. With no timing left, `vosk_words[0]` raises IndexError.
   */
  function OneGroup(nWhisper: nat, nVosk: nat, c: Cursor): (r: Result<(seq<WordTiming>, Cursor)>)
    ensures r.Err? <==> nVosk > 0 && c.timing == []
    ensures r.Err? ==> r.error == IndexError
    ensures r.Ok? ==> r.value.1.text == c.text[Min(nWhisper, |c.text|)..]
    ensures r.Ok? && nVosk == 0 ==> r.value.0 == [] && r.value.1.timing == c.timing
    ensures r.Ok? && nVosk > 0 ==>
      var used := Min(nVosk, |c.timing|);
      && r.value.1.timing == c.timing[used..]
      && r.value.0 == [Timed(Join(c.text[..Min(nWhisper, |c.text|)], " "), c.timing[0].start, c.timing[used - 1].end)]
  {
    var words := c.text[..Min(nWhisper, |c.text|)];
    var text := Join(words, " ");
    var remaining := c.text[|words|..];
    if nVosk == 0 then Ok(([], Cursor(remaining, c.timing)))
    else
      var voskWords := c.timing[..Min(nVosk, |c.timing|)];
      if voskWords == [] then Err(IndexError)
      else Ok(([Timed(text, voskWords[0].start, voskWords[|voskWords| - 1].end)], Cursor(remaining, c.timing[|voskWords|..])))
  }

  /** Words emitted before a step come before the step's own words; an error stays an error. */
  function Prepend(out: seq<WordTiming>, r: Result<(seq<WordTiming>, Cursor)>): (p: Result<(seq<WordTiming>, Cursor)>)
    ensures p.Err? <==> r.Err?
  {
    match r
    case Err(e) => Err(e)
    case Ok((more, c)) => Ok((out + more, c))
  }

  lemma PrependPrepend(a: seq<WordTiming>, b: seq<WordTiming>, r: Result<(seq<WordTiming>, Cursor)>)
    ensures Prepend(a, Prepend(b, r)) == Prepend(a + b, r)
  {
    if r.Ok? {
      assert a + (b + r.value.0) == (a + b) + r.value.0;
    }
  }

  lemma PrependNothing(r: Result<(seq<WordTiming>, Cursor)>)
    ensures Prepend([], r) == r
  {
    if r.Ok? {
      assert [] + r.value.0 == r.value.0;
    }
  }

  /** `_reconcile_one` on the word counts of the paired pieces: the sub-groups in order, up to the shorter side. */
  function Disagreement(whisperCounts: seq<nat>, voskCounts: seq<nat>, c: Cursor): (r: Result<(seq<WordTiming>, Cursor)>)
    ensures r.Err? ==> r.error == IndexError
  {
    if whisperCounts == [] || voskCounts == [] then Ok(([], c))
    else
      match OneGroup(whisperCounts[0], voskCounts[0], c)
      case Err(e) => Err(e)
      case Ok((out, c1)) => Prepend(out, Disagreement(whisperCounts[1..], voskCounts[1..], c1))
  }

  /**
   * `zip(whisper_segments, vosk_segments)` stops at the shorter side: the pieces past it on the
   * longer side consume nothing and change nothing.
   */
  lemma {:induction false} DisagreementPairsShorter(whisperCounts: seq<nat>, voskCounts: seq<nat>, c: Cursor)
    ensures var m := Min(|whisperCounts|, |voskCounts|);
      Disagreement(whisperCounts, voskCounts, c) == Disagreement(whisperCounts[..m], voskCounts[..m], c)
  {
    var m := Min(|whisperCounts|, |voskCounts|);
    if whisperCounts != [] && voskCounts != [] {
      var w, v := whisperCounts[..m], voskCounts[..m];
      assert w[0] == whisperCounts[0] && v[0] == voskCounts[0];
      assert w[1..] == whisperCounts[1..][..m - 1] && v[1..] == voskCounts[1..][..m - 1];
      match OneGroup(whisperCounts[0], voskCounts[0], c)
      case Err(_) =>
      case Ok((_, c1)) => DisagreementPairsShorter(whisperCounts[1..], voskCounts[1..], c1);
    }
  }

  /** Each sub-group emits at most one word, so a disagreement emits at most as many as it pairs. */
  lemma {:induction false} DisagreementSize(whisperCounts: seq<nat>, voskCounts: seq<nat>, c: Cursor)
    requires Disagreement(whisperCounts, voskCounts, c).Ok?
    ensures |Disagreement(whisperCounts, voskCounts, c).value.0| <= Min(|whisperCounts|, |voskCounts|)
  {
    if whisperCounts != [] && voskCounts != [] {
      var c1 := OneGroup(whisperCounts[0], voskCounts[0], c).value.1;
      DisagreementSize(whisperCounts[1..], voskCounts[1..], c1);
    }
  }

  /**
   * `_reconcile_matching` with `n` phrase tokens: `zip(tokens, text, timings)` emits one word per
   * step, taking the text word before the timing, so running out of timings loses one text word.
   */
  function MatchRun(n: nat, c: Cursor): (r: (seq<WordTiming>, Cursor))
    ensures |r.0| == Min(n, Min(|c.text|, |c.timing|))
    ensures r.1.timing == c.timing[|r.0|..]
  {
    if n == 0 || c.text == [] then ([], c)
    else if c.timing == [] then ([], Cursor(c.text[1..], c.timing))
    else
      var t := c.timing[0];
      var (out, c1) := MatchRun(n - 1, Cursor(c.text[1..], c.timing[1..]));
      ([Timed(c.text[0], t.start, t.end)] + out, c1)
  }

  /**
   * The matching run pairs the k-th text word with the k-th timing, as many times as the phrase
   * has tokens and both iterators have items; it consumes the timings it pairs, and one text
   * word more when the timings are what runs out.
   */
  lemma {:induction false} MatchRunShape(n: nat, c: Cursor)
    ensures var r := MatchRun(n, c);
      && |r.0| == Min(n, Min(|c.text|, |c.timing|))
      && (forall k :: 0 <= k < |r.0| ==> r.0[k] == Timed(c.text[k], c.timing[k].start, c.timing[k].end))
      && r.1.timing == c.timing[|r.0|..]
      && r.1.text == c.text[(if |c.timing| < Min(n, |c.text|) then |r.0| + 1 else |r.0|)..]
  {
    if n > 0 && c.text != [] && c.timing != [] {
      var c1 := Cursor(c.text[1..], c.timing[1..]);
      MatchRunShape(n - 1, c1);
      var r1 := MatchRun(n - 1, c1);
      var r := MatchRun(n, c);
      assert r.0 == [Timed(c.text[0], c.timing[0].start, c.timing[0].end)] + r1.0;
      forall k | 1 <= k < |r.0|
        ensures r.0[k] == Timed(c.text[k], c.timing[k].start, c.timing[k].end)
      {
        assert r.0[k] == r1.0[k - 1];
        assert c1.text[k - 1] == c.text[k] && c1.timing[k - 1] == c.timing[k];
      }
      assert c.timing[1..][|r1.0|..] == c.timing[|r.0|..];
      assert c.text[1..][|r1.0|..] == c.text[|r.0|..];
      if |c.timing| < Min(n, |c.text|) {
        assert c.text[1..][|r1.0| + 1..] == c.text[|r.0| + 1..];
      }
    }
  }

  /** One row: its disagreement, then its matching phrase. */
  function RowStep(row: Row, c: Cursor): Result<(seq<WordTiming>, Cursor)> {
    match Disagreement(WordCounts(SlashPieces(row.whisper)), WordCounts(SlashPieces(row.vosk)), c)
    case Err(e) => Err(e)
    case Ok((out, c1)) => Prepend(out, Ok(MatchRun(|Split(row.matching)|, c1)))
  }

  /** `HoshiAssistant.reconcile` over the rows, from the given cursors. */
  function Rows(rows: seq<Row>, c: Cursor): Result<(seq<WordTiming>, Cursor)> {
    if rows == [] then Ok(([], c))
    else
      match RowStep(rows[0], c)
      case Err(e) => Err(e)
      case Ok((out, c1)) => Prepend(out, Rows(rows[1..], c1))
  }

  /** Rows are processed in order: a list of rows gives the words of its first part, then those of the rest. */
  lemma {:induction false} RowsAppend(a: seq<Row>, b: seq<Row>, c: Cursor)
    ensures Rows(a, c).Err? ==> Rows(a + b, c) == Rows(a, c)
    ensures Rows(a, c).Ok? ==> Rows(a + b, c) == Prepend(Rows(a, c).value.0, Rows(b, Rows(a, c).value.1))
  {
    if a == [] {
      assert a + b == b;
      PrependNothing(Rows(b, c));
    } else {
      assert (a + b)[0] == a[0] && (a + b)[1..] == a[1..] + b;
      match RowStep(a[0], c)
      case Err(e) =>
      case Ok((out, c1)) =>
        RowsAppend(a[1..], b, c1);
        if Rows(a[1..], c1).Ok? {
          PrependPrepend(out, Rows(a[1..], c1).value.0, Rows(b, Rows(a[1..], c1).value.1));
        }
    }
  }

  /** A row that agrees entirely (no disagreement, `n` words matching). */
  predicate Agreeing(row: Row) {
    row.whisper == "" && row.vosk == ""
  }

  function TotalMatching(rows: seq<Row>): nat {
    if rows == [] then 0 else |Split(rows[0].matching)| + TotalMatching(rows[1..])
  }

  /** The words of a positional pairing: whisper's k-th word with vosk's k-th timing. */
  function Paired(text: seq<string>, timing: seq<WordTiming>): (r: seq<WordTiming>)
    requires |text| == |timing|
    ensures |r| == |text|
  {
    seq(|text|, k requires 0 <= k < |text| => Timed(text[k], timing[k].start, timing[k].end))
  }

  lemma PairedAppend(t1: seq<string>, t2: seq<string>, m1: seq<WordTiming>, m2: seq<WordTiming>)
    requires |t1| == |m1| && |t2| == |m2|
    ensures Paired(t1 + t2, m1 + m2) == Paired(t1, m1) + Paired(t2, m2)
  {
    var l := Paired(t1 + t2, m1 + m2);
    var r := Paired(t1, m1) + Paired(t2, m2);
    forall k | 0 <= k < |l|
      ensures l[k] == r[k]
    {
      if k < |t1| {
        assert (t1 + t2)[k] == t1[k] && (m1 + m2)[k] == m1[k];
      } else {
        assert (t1 + t2)[k] == t2[k - |t1|] && (m1 + m2)[k] == m2[k - |t1|];
      }
    }
  }

  /** An empty phrase is one empty piece: no words, so nothing is taken. */
  lemma EmptyPhrase()
    ensures WordCounts(SlashPieces("")) == [0]
  {
    assert Split("") == [];
  }

  /** An agreeing row pairs the next `n` text words with the next `n` timings, `n` its phrase's word count. */
  lemma AgreeingRowStep(row: Row, c: Cursor)
    requires Agreeing(row)
    requires |Split(row.matching)| <= |c.text| && |Split(row.matching)| <= |c.timing|
    ensures var n := |Split(row.matching)|;
      RowStep(row, c) == Ok((Paired(c.text[..n], c.timing[..n]), Cursor(c.text[n..], c.timing[n..])))
  {
    EmptyPhrase();
    var n := |Split(row.matching)|;
    assert OneGroup(0, 0, c) == Ok(([], c)) by {
      assert c.text[0..] == c.text;
    }
    assert [0][1..] == [];
    PrependNothing(Ok(([], c)));
    assert Disagreement([0], [0], c) == Ok(([], c));
    MatchRunShape(n, c);
    var m := MatchRun(n, c);
    assert m.0 == Paired(c.text[..n], c.timing[..n]);
    assert m.1 == Cursor(c.text[n..], c.timing[n..]);
    assert [] + m.0 == m.0;
  }

  /**
   * When every row agrees and the matching phrases hold exactly as many words as there are
   * whisper words and vosk timings, the result pairs them up positionally.
   */
  lemma {:induction false} AgreeingRowsPair(rows: seq<Row>, c: Cursor)
    requires forall k :: 0 <= k < |rows| ==> Agreeing(rows[k])
    requires |c.text| == |c.timing| == TotalMatching(rows)
    ensures Rows(rows, c).Ok?
    ensures Rows(rows, c).value.0 == Paired(c.text, c.timing)
  {
    if rows != [] {
      var n := |Split(rows[0].matching)|;
      AgreeingRowStep(rows[0], c);
      var c1 := Cursor(c.text[n..], c.timing[n..]);
      AgreeingRowsPair(rows[1..], c1);
      var rest := Rows(rows[1..], c1);
      assert Rows(rows, c) == Prepend(Paired(c.text[..n], c.timing[..n]), rest);
      PairedAppend(c.text[..n], c.text[n..], c.timing[..n], c.timing[n..]);
      TakeDrop(c.text, n);
      TakeDrop(c.timing, n);
    }
  }

  /** The assisted result: the rows of the columns over whisper's words and vosk's timings. */
  function AssistedSpec(whisper: WhisperResult, vosk: seq<WordTiming>, cols: Columns): Result<seq<WordTiming>> {
    var (out, _) :- Rows(IterRows(cols), Cursor(Split(whisper.text), vosk));
    Ok(out)
  }

  /** The assisted result depends on the columns only up to the end of the shortest one. */
  lemma AssistedSurplusIgnored(whisper: WhisperResult, vosk: seq<WordTiming>, cols: Columns, extra: seq<string>)
    requires |cols.whisper| >= Min(|cols.vosk|, |cols.matching|)
    ensures AssistedSpec(whisper, vosk, cols.(whisper := cols.whisper + extra)) == AssistedSpec(whisper, vosk, cols)
  {
    var longer := cols.(whisper := cols.whisper + extra);
    assert Shortest(longer) == Shortest(cols);
    forall k | 0 <= k < Shortest(cols)
      ensures IterRows(longer)[k] == IterRows(cols)[k]
    {
      assert longer.whisper[k] == cols.whisper[k];
    }
    assert IterRows(longer) == IterRows(cols);
  }

  lemma DisagreementAt(whisperCounts: seq<nat>, voskCounts: seq<nat>, i: nat, c: Cursor)
    requires i < |whisperCounts| && i < |voskCounts|
    ensures var g := OneGroup(whisperCounts[i], voskCounts[i], c);
      && (g.Err? ==> Disagreement(whisperCounts[i..], voskCounts[i..], c) == Err(g.error))
      && (g.Ok? ==> Disagreement(whisperCounts[i..], voskCounts[i..], c)
                    == Prepend(g.value.0, Disagreement(whisperCounts[i + 1..], voskCounts[i + 1..], g.value.1)))
  {
    assert whisperCounts[i..][0] == whisperCounts[i] && voskCounts[i..][0] == voskCounts[i];
    assert whisperCounts[i..][1..] == whisperCounts[i + 1..] && voskCounts[i..][1..] == voskCounts[i + 1..];
  }

  /** One sub-group of `_reconcile_one` over the two shared iterators. */
  method ReconcileGroup(nWhisper: nat, nVosk: nat, text: Stream<string>, timings: Stream<WordTiming>)
    returns (r: Result<seq<WordTiming>>)
    requires text.Valid() && timings.Valid()
    modifies text, timings
    ensures text.Valid() && timings.Valid()
    ensures var g := OneGroup(nWhisper, nVosk, Cursor(old(text.Rest()), old(timings.Rest())));
      && (r.Ok? <==> g.Ok?)
      && (r.Ok? ==> r.value == g.value.0 && Cursor(text.Rest(), timings.Rest()) == g.value.1)
  {
    ghost var c := Cursor(text.Rest(), timings.Rest());
    var taken := text.Take(nWhisper);
    assert taken == c.text[..Min(nWhisper, |c.text|)];
    var joined := Join(taken, " ");
    if nVosk == 0 {
      return Ok([]);
    }
    var voskWords := timings.Take(nVosk);
    assert voskWords == c.timing[..Min(nVosk, |c.timing|)];
    if voskWords == [] {
      return Err(IndexError);
    }
    r := Ok([Timed(joined, voskWords[0].start, voskWords[|voskWords| - 1].end)]);
  }

  /** `_reconcile_one` over the two shared iterators. */
  method ReconcileOne(whisperPhrase: string, voskPhrase: string, text: Stream<string>, timings: Stream<WordTiming>)
    returns (r: Result<seq<WordTiming>>)
    requires text.Valid() && timings.Valid()
    modifies text, timings
    ensures text.Valid() && timings.Valid()
    ensures var d := Disagreement(WordCounts(SlashPieces(whisperPhrase)), WordCounts(SlashPieces(voskPhrase)),
                                  Cursor(old(text.Rest()), old(timings.Rest())));
      && (r.Ok? <==> d.Ok?)
      && (r.Ok? ==> r.value == d.value.0 && text.Rest() == d.value.1.text && timings.Rest() == d.value.1.timing)
    ensures r.Err? ==> r.error == IndexError
  {
    var whisperSegments := SlashPieces(whisperPhrase);
    var voskSegments := SlashPieces(voskPhrase);
    ghost var wc := WordCounts(whisperSegments);
    ghost var vc := WordCounts(voskSegments);
    ghost var whole := Disagreement(wc, vc, Cursor(text.Rest(), timings.Rest()));
    var out: seq<WordTiming> := [];
    var i := 0;
    assert wc[0..] == wc && vc[0..] == vc;
    PrependNothing(whole);
    while i < Min(|whisperSegments|, |voskSegments|)
      invariant text.Valid() && timings.Valid()
      invariant 0 <= i <= Min(|whisperSegments|, |voskSegments|)
      invariant whole == Prepend(out, Disagreement(wc[i..], vc[i..], Cursor(text.Rest(), timings.Rest())))
    {
      ghost var c := Cursor(text.Rest(), timings.Rest());
      DisagreementAt(wc, vc, i, c);
      var words := ReconcileGroup(|Split(whisperSegments[i])|, |Split(voskSegments[i])|, text, timings);
      if words.Err? {
        return Err(IndexError);
      }
      PrependPrepend(out, words.value, Disagreement(wc[i + 1..], vc[i + 1..], Cursor(text.Rest(), timings.Rest())));
      out := out + words.value;
      i := i + 1;
    }
    assert wc[i..] == [] || vc[i..] == [];
    assert out + [] == out;
    r := Ok(out);
  }

  lemma MatchRunStep(n: nat, c: Cursor)
    ensures n == 0 || c.text == [] ==> MatchRun(n, c) == ([], c)
    ensures n > 0 && c.text != [] && c.timing == [] ==> MatchRun(n, c) == ([], Cursor(c.text[1..], []))
    ensures n > 0 && c.text != [] && c.timing != [] ==>
      var m := MatchRun(n - 1, Cursor(c.text[1..], c.timing[1..]));
      MatchRun(n, c) == ([Timed(c.text[0], c.timing[0].start, c.timing[0].end)] + m.0, m.1)
  {
  }

  /** One turn of the matching loop moves one paired word from the run onto the output. */
  lemma MatchRunTurn(n: nat, c: Cursor, out: seq<WordTiming>, whole: (seq<WordTiming>, Cursor))
    requires n > 0 && c.text != [] && c.timing != []
    requires whole.0 == out + MatchRun(n, c).0 && whole.1 == MatchRun(n, c).1
    ensures var c1 := Cursor(c.text[1..], c.timing[1..]);
      && whole.0 == (out + [Timed(c.text[0], c.timing[0].start, c.timing[0].end)]) + MatchRun(n - 1, c1).0
      && whole.1 == MatchRun(n - 1, c1).1
  {
    MatchRunStep(n, c);
    var next := Timed(c.text[0], c.timing[0].start, c.timing[0].end);
    var m := MatchRun(n - 1, Cursor(c.text[1..], c.timing[1..]));
    assert out + ([next] + m.0) == (out + [next]) + m.0;
  }

  /**
   * One step of `zip(tokens, true_transcription, timings)` past the token: the next text word,
   * then the next timing, and the paired word when both were there.
   */
  method MatchTurn(text: Stream<string>, timings: Stream<WordTiming>) returns (next: Option<WordTiming>)
    requires text.Valid() && timings.Valid()
    modifies text, timings
    ensures text.Valid() && timings.Valid()
    ensures var c := Cursor(old(text.Rest()), old(timings.Rest()));
      && (c.text == [] ==> next.None? && text.Rest() == c.text && timings.Rest() == c.timing)
      && (c.text != [] && c.timing == [] ==> next.None? && text.Rest() == c.text[1..] && timings.Rest() == [])
      && (c.text != [] && c.timing != [] ==>
            && next == Some(Timed(c.text[0], c.timing[0].start, c.timing[0].end))
            && text.Rest() == c.text[1..] && timings.Rest() == c.timing[1..])
  {
    var word := text.Next();
    if word.None? {
      return None;
    }
    var timing := timings.Next();
    if timing.None? {
      return None;
    }
    next := Some(Timed(word.value, timing.value.start, timing.value.end));
  }

  /** `_reconcile_matching` over the two shared iterators. */
  method ReconcileMatching(matchingPhrase: string, text: Stream<string>, timings: Stream<WordTiming>)
    returns (out: seq<WordTiming>)
    requires text.Valid() && timings.Valid()
    modifies text, timings
    ensures text.Valid() && timings.Valid()
    ensures (out, Cursor(text.Rest(), timings.Rest())) == MatchRun(|Split(matchingPhrase)|, Cursor(old(text.Rest()), old(timings.Rest())))
  {
    var tokens := Split(matchingPhrase);
    ghost var whole := MatchRun(|tokens|, Cursor(text.Rest(), timings.Rest()));
    out := [];
    var i := 0;
    assert [] + whole.0 == whole.0;
    while true
      invariant text.Valid() && timings.Valid()
      invariant 0 <= i <= |tokens|
      invariant whole.0 == out + MatchRun(|tokens| - i, Cursor(text.Rest(), timings.Rest())).0
      invariant whole.1 == MatchRun(|tokens| - i, Cursor(text.Rest(), timings.Rest())).1
      decreases |tokens| - i
    {
      ghost var c := Cursor(text.Rest(), timings.Rest());
      MatchRunStep(|tokens| - i, c);
      if i == |tokens| {
        assert out + [] == out;
        break;
      }
      var next := MatchTurn(text, timings);
      if next.None? {
        assert out + [] == out;
        break;
      }
      MatchRunTurn(|tokens| - i, c, out, whole);
      out := out + [next.value];
      i := i + 1;
    }
  }

  lemma RowsAt(rows: seq<Row>, i: nat, c: Cursor)
    requires i < |rows|
    ensures var d := Disagreement(WordCounts(SlashPieces(rows[i].whisper)), WordCounts(SlashPieces(rows[i].vosk)), c);
      && (d.Err? ==> Rows(rows[i..], c) == Err(d.error))
      && (d.Ok? ==>
            var m := MatchRun(|Split(rows[i].matching)|, d.value.1);
            Rows(rows[i..], c) == Prepend(d.value.0 + m.0, Rows(rows[i + 1..], m.1)))
  {
    assert rows[i..][0] == rows[i] && rows[i..][1..] == rows[i + 1..];
    var d := Disagreement(WordCounts(SlashPieces(rows[i].whisper)), WordCounts(SlashPieces(rows[i].vosk)), c);
    if d.Ok? {
      var m := MatchRun(|Split(rows[i].matching)|, d.value.1);
      assert RowStep(rows[i], c) == Ok((d.value.0 + m.0, m.1));
    }
  }

  /** `HoshiAssistant.reconcile`: the rows in order, over fresh iterators on whisper's words and vosk's timings. */
  method ReconcileAssisted(whisper: WhisperResult, vosk: seq<WordTiming>, cols: Columns) returns (r: Result<seq<WordTiming>>)
    ensures r == AssistedSpec(whisper, vosk, cols)
  {
    var rows := IterRows(cols);
    var trueTranscription := new Stream(Split(whisper.text));
    var timings := new Stream(vosk);
    ghost var whole := Rows(rows, Cursor(trueTranscription.Rest(), timings.Rest()));
    var out: seq<WordTiming> := [];
    assert rows[0..] == rows;
    PrependNothing(whole);
    for i := 0 to |rows|
      invariant trueTranscription.Valid() && timings.Valid()
      invariant whole == Prepend(out, Rows(rows[i..], Cursor(trueTranscription.Rest(), timings.Rest())))
    {
      var row := rows[i];
      ghost var c := Cursor(trueTranscription.Rest(), timings.Rest());
      ghost var d := Disagreement(WordCounts(SlashPieces(row.whisper)), WordCounts(SlashPieces(row.vosk)), c);
      RowsAt(rows, i, c);
      var one := ReconcileOne(row.whisper, row.vosk, trueTranscription, timings);
      if one.Err? {
        assert whole == Err(IndexError);
        return Err(one.error);
      }
      ghost var c1 := Cursor(trueTranscription.Rest(), timings.Rest());
      assert c1 == d.value.1;
      var matching := ReconcileMatching(row.matching, trueTranscription, timings);
      ghost var c2 := Cursor(trueTranscription.Rest(), timings.Rest());
      assert (matching, c2) == MatchRun(|Split(row.matching)|, c1);
      PrependPrepend(out, one.value + matching, Rows(rows[i + 1..], c2));
      out := out + (one.value + matching);
    }
    assert out + [] == out;
    r := Ok(out);
  }

  // ---------------------------------------------------------------------------------------------
  // the dispatch

  datatype Path = EqualSimple | UnequalSimple | Assisted

  /** Which path `reconcile` takes: equal word counts (unless always assisted), else by mode. */
  function ReconcilePath(whisper: WhisperResult, vosk: seq<WordTiming>, mode: string): (p: Path)
    ensures p == EqualSimple <==> |Split(whisper.text)| == |vosk| && mode != "always-assisted"
    ensures p == UnequalSimple <==> (|Split(whisper.text)| != |vosk| || mode == "always-assisted") && mode == "simple"
  {
    if |Split(whisper.text)| == |vosk| && mode != "always-assisted" then EqualSimple
    else if mode == "simple" then UnequalSimple
    else Assisted
  }

  /**
   * `reconcile(whisper_result, vosk_result, mode=mode)` as the word timings it produces; `cols`
   * are what the assistant's entry widgets hold when the assisted path runs.
   */
  function Reconcile(whisper: WhisperResult, vosk: seq<WordTiming>, mode: string, cols: Columns): (r: Result<seq<WordTiming>>)
    ensures ReconcilePath(whisper, vosk, mode) == EqualSimple ==>
      r == Ok(Concat(ZipAheadGroups(SegmentCounts(whisper.segments), vosk)))
    ensures ReconcilePath(whisper, vosk, mode) == UnequalSimple ==> r == Ok(vosk)
    ensures ReconcilePath(whisper, vosk, mode) == Assisted ==> r == AssistedSpec(whisper, vosk, cols)
  {
    match ReconcilePath(whisper, vosk, mode)
    case EqualSimple => Ok(Concat(ZipAheadGroups(SegmentCounts(whisper.segments), vosk)))
    case UnequalSimple => Ok(vosk)
    case Assisted => AssistedSpec(whisper, vosk, cols)
  }

  /** The dispatch with the positional equal-count path. */
  function ReconcileCorrected(whisper: WhisperResult, vosk: seq<WordTiming>, mode: string, cols: Columns): (r: Result<seq<WordTiming>>)
    ensures ReconcilePath(whisper, vosk, mode) != EqualSimple ==> r == Reconcile(whisper, vosk, mode, cols)
    ensures ReconcilePath(whisper, vosk, mode) == EqualSimple && SumNat(SegmentCounts(whisper.segments)) == |vosk| ==>
      r == Ok(vosk)
  {
    match ReconcilePath(whisper, vosk, mode)
    case EqualSimple =>
      InOrderIsPrefix(SegmentCounts(whisper.segments), vosk);
      assert vosk[..|vosk|] == vosk;
      Ok(Concat(InOrderGroups(SegmentCounts(whisper.segments), vosk)))
    case _ => Reconcile(whisper, vosk, mode, cols)
  }
}
