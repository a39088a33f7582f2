/**
 * stlr/transcribe.py: word timings, segments of a transcript and the transcript itself, with the
 * derived values the rest of the pipeline reads (start, duration, words, waits, text), the
 * pause-delimited segmentation, the fragment lookup and the cue-file row mappings. The whisper
 * result dictionary that the reconcilers read and rewrite is modelled here as well.
 */
module Transcribe {
  import opened Wrappers
  import opened Text
  import opened Utils
  import opened Streams

  /** One timed word (`stable_whisper.result.WordTiming`, the fields this code reads). */
  datatype WordTiming = WordTiming(word: string, start: real, end: real, probability: Option<real>)

  /** `WordTiming(word=..., start=..., end=...)`: no probability recorded. */
  function Timed(word: string, start: real, end: real): WordTiming {
    WordTiming(word, start, end, None)
  }

  datatype Segment = Segment(words: seq<WordTiming>, waitAfter: real)

  /** `Transcription`: the timed words as a tuple, and the name of the model that produced them. */
  datatype Transcription = Transcription(timings: seq<WordTiming>, model: Option<string>)

  // ---------------------------------------------------------------------------------------------
  // min, max, sum and mean over reals

  function MinOf(xs: seq<real>): (m: real)
    requires xs != []
    ensures forall k :: 0 <= k < |xs| ==> m <= xs[k]
    ensures exists k :: 0 <= k < |xs| && m == xs[k]
  {
    if |xs| == 1 then xs[0]
    else
      var rest := MinOf(xs[1..]);
      assert forall k :: 1 <= k < |xs| ==> xs[k] == xs[1..][k - 1];
      if xs[0] <= rest then xs[0] else rest
  }

  function MaxOf(xs: seq<real>): (m: real)
    requires xs != []
    ensures forall k :: 0 <= k < |xs| ==> xs[k] <= m
    ensures exists k :: 0 <= k < |xs| && m == xs[k]
  {
    if |xs| == 1 then xs[0]
    else
      var rest := MaxOf(xs[1..]);
      assert forall k :: 1 <= k < |xs| ==> xs[k] == xs[1..][k - 1];
      if xs[0] >= rest then xs[0] else rest
  }

  function Sum(xs: seq<real>): real {
    if xs == [] then 0.0 else xs[0] + Sum(xs[1..])
  }

  /** A lower bound of every item bounds the sum from below by n times itself. */
  lemma {:induction false} SumAtLeast(xs: seq<real>, m: real)
    requires forall k :: 0 <= k < |xs| ==> m <= xs[k]
    ensures |xs| as real * m <= Sum(xs)
  {
    if xs != [] {
      SumAtLeast(xs[1..], m);
      assert |xs| as real * m == (|xs| - 1) as real * m + m;
    }
  }

  /** An upper bound of every item bounds the sum from above by n times itself. */
  lemma {:induction false} SumAtMost(xs: seq<real>, m: real)
    requires forall k :: 0 <= k < |xs| ==> xs[k] <= m
    ensures Sum(xs) <= |xs| as real * m
  {
    if xs != [] {
      SumAtMost(xs[1..], m);
      assert |xs| as real * m == (|xs| - 1) as real * m + m;
    }
  }

  lemma DivideBounds(lo: real, total: real, hi: real, n: real)
    requires n > 0.0 && n * lo <= total <= n * hi
    ensures lo <= total / n <= hi
  {
    assert total / n * n == total;
  }

  lemma MeanWithin(xs: seq<real>, lo: real, hi: real)
    requires xs != []
    requires |xs| as real * lo <= Sum(xs) <= |xs| as real * hi
    ensures lo <= Sum(xs) / |xs| as real <= hi
  {
    DivideBounds(lo, Sum(xs), hi, |xs| as real);
  }

  /** The mean of a non-empty list lies between its least and its greatest item. */
  lemma MeanBetween(xs: seq<real>)
    requires xs != []
    ensures MinOf(xs) <= Sum(xs) / |xs| as real <= MaxOf(xs)
  {
    var lo, hi := MinOf(xs), MaxOf(xs);
    SumAtLeast(xs, lo);
    SumAtMost(xs, hi);
    MeanWithin(xs, lo, hi);
  }

  // ---------------------------------------------------------------------------------------------
  // Segment

  function Starts(ws: seq<WordTiming>): (r: seq<real>)
    ensures |r| == |ws| && forall k :: 0 <= k < |ws| ==> r[k] == ws[k].start
  {
    seq(|ws|, k requires 0 <= k < |ws| => ws[k].start)
  }

  function Ends(ws: seq<WordTiming>): (r: seq<real>)
    ensures |r| == |ws| && forall k :: 0 <= k < |ws| ==> r[k] == ws[k].end
  {
    seq(|ws|, k requires 0 <= k < |ws| => ws[k].end)
  }

  /** `Segment.start`: the earliest word start; `min` of nothing raises ValueError. */
  function SegmentStart(s: Segment): (r: Result<real>)
    ensures r.Err? <==> s.words == []
    ensures r.Err? ==> r.error == ValueError
    ensures r.Ok? ==> forall k :: 0 <= k < |s.words| ==> r.value <= s.words[k].start
    ensures r.Ok? ==> exists k :: 0 <= k < |s.words| && r.value == s.words[k].start
  {
    if s.words == [] then Err(ValueError) else Ok(MinOf(Starts(s.words)))
  }

  /** `Segment.end`: the latest word end; `max` of nothing raises ValueError. */
  function SegmentEnd(s: Segment): (r: Result<real>)
    ensures r.Err? <==> s.words == []
    ensures r.Err? ==> r.error == ValueError
    ensures r.Ok? ==> forall k :: 0 <= k < |s.words| ==> s.words[k].end <= r.value
    ensures r.Ok? ==> exists k :: 0 <= k < |s.words| && r.value == s.words[k].end
  {
    if s.words == [] then Err(ValueError) else Ok(MaxOf(Ends(s.words)))
  }

  predicate Ordered(w: WordTiming) {
    w.start <= w.end
  }

  /** `Segment.duration`: end minus start, never negative when every word ends after it starts. */
  function SegmentDuration(s: Segment): (r: Result<real>)
    ensures r.Err? <==> s.words == []
    ensures r.Ok? ==> r.value == SegmentEnd(s).value - SegmentStart(s).value
    ensures r.Ok? && (forall k :: 0 <= k < |s.words| ==> Ordered(s.words[k])) ==> r.value >= 0.0
  {
    if s.words == [] then Err(ValueError)
    else
      var start := SegmentStart(s).value;
      var end := SegmentEnd(s).value;
      assert s.words[0].start <= s.words[0].end ==> start <= end;
      Ok(end - start)
  }

  /** The word texts with surrounding whitespace stripped. */
  function Stripped(ws: seq<WordTiming>): (r: seq<string>)
    ensures |r| == |ws| && forall k :: 0 <= k < |ws| ==> r[k] == Strip(ws[k].word)
  {
    seq(|ws|, k requires 0 <= k < |ws| => Strip(ws[k].word))
  }

  lemma StrippedSlice(ws: seq<WordTiming>, i: nat, j: nat)
    requires i <= j <= |ws|
    ensures Stripped(ws[i..j]) == Stripped(ws)[i..j]
  {
    var a := Stripped(ws[i..j]);
    var b := Stripped(ws)[i..j];
    forall k | 0 <= k < j - i
      ensures a[k] == b[k]
    {
      assert ws[i..j][k] == ws[i + k];
    }
  }

  /** Each stripped word is one whitespace-free word: a text made of them splits back into them. */
  predicate PlainWords(ws: seq<WordTiming>) {
    forall k :: 0 <= k < |ws| ==> IsWord(Strip(ws[k].word))
  }

  /** `str(segment)`: the stripped words joined by single spaces, which split back into those words. */
  function SegmentStr(s: Segment): (r: string)
    ensures PlainWords(s.words) ==> Split(r) == Stripped(s.words)
  {
    assert PlainWords(s.words) ==> Split(Join(Stripped(s.words), " ")) == Stripped(s.words) by {
      if PlainWords(s.words) {
        SplitJoin(Stripped(s.words));
      }
    }
    Join(Stripped(s.words), " ")
  }

  // ---------------------------------------------------------------------------------------------
  // Transcription

  /** `Transcription.start`: the first word's start; indexing an empty tuple raises IndexError. */
  function Start(t: Transcription): (r: Result<real>)
    ensures r.Err? <==> t.timings == []
    ensures r.Err? ==> r.error == IndexError
    ensures r.Ok? ==> r.value == t.timings[0].start
  {
    if t.timings == [] then Err(IndexError) else Ok(t.timings[0].start)
  }

  /** `Transcription.duration`: the last word's end; IndexError on an empty transcript. */
  function Duration(t: Transcription): (r: Result<real>)
    ensures r.Err? <==> t.timings == []
    ensures r.Err? ==> r.error == IndexError
    ensures r.Ok? ==> r.value == t.timings[|t.timings| - 1].end
  {
    if t.timings == [] then Err(IndexError) else Ok(t.timings[|t.timings| - 1].end)
  }

  /** `t.probability or 0.0`. */
  function Probability(w: WordTiming): real {
    w.probability.GetOr(0.0)
  }

  function Probabilities(ws: seq<WordTiming>): (r: seq<real>)
    ensures |r| == |ws| && forall k :: 0 <= k < |ws| ==> r[k] == Probability(ws[k])
  {
    seq(|ws|, k requires 0 <= k < |ws| => Probability(ws[k]))
  }

  /** `Transcription.min_confidence`: the least word probability; ValueError when empty. */
  function MinConfidence(t: Transcription): (r: Result<real>)
    ensures r.Err? <==> t.timings == []
    ensures r.Err? ==> r.error == ValueError
    ensures r.Ok? ==> forall k :: 0 <= k < |t.timings| ==> r.value <= Probability(t.timings[k])
    ensures r.Ok? ==> exists k :: 0 <= k < |t.timings| && r.value == Probability(t.timings[k])
  {
    if t.timings == [] then Err(ValueError) else Ok(MinOf(Probabilities(t.timings)))
  }

  /**
   * `Transcription.confidence`: the mean word probability (a missing one counts as 0); dividing
   * by the length of an empty transcript raises ZeroDivisionError. The mean lies between the
   * least and the greatest probability.
   */
  function Confidence(t: Transcription): (r: Result<real>)
    ensures r.Err? <==> t.timings == []
    ensures r.Err? ==> r.error == ZeroDivisionError
    ensures r.Ok? ==> MinConfidence(t).value <= r.value <= MaxOf(Probabilities(t.timings))
    ensures r.Ok? && (forall k :: 0 <= k < |t.timings| ==> 0.0 <= Probability(t.timings[k]) <= 1.0) ==>
              0.0 <= r.value <= 1.0
  {
    if t.timings == [] then Err(ZeroDivisionError)
    else
      var ps := Probabilities(t.timings);
      MeanBetween(ps);
      Ok(Sum(ps) / |ps| as real)
  }

  /** `Transcription.words`: the stripped word texts. */
  function Words(t: Transcription): (r: seq<string>)
    ensures |r| == |t.timings| && forall k :: 0 <= k < |t.timings| ==> r[k] == Strip(t.timings[k].word)
  {
    Stripped(t.timings)
  }

  /** `str(transcription)`: the stripped words joined by single spaces, which split back into `words`. */
  function Str(t: Transcription): (r: string)
    ensures PlainWords(t.timings) ==> Split(r) == Words(t)
  {
    assert PlainWords(t.timings) ==> Split(Join(Words(t), " ")) == Words(t) by {
      if PlainWords(t.timings) {
        SplitJoin(Words(t));
      }
    }
    Join(Words(t), " ")
  }

  /** The text of a transcript is the text of one segment holding all of its words. */
  lemma StrIsSegmentStr(t: Transcription, wait: real)
    ensures Str(t) == SegmentStr(Segment(t.timings, wait))
  {
  }

  // ---------------------------------------------------------------------------------------------
  // waits

  /** The pause between one word's end and the next word's start. */
  function Gap(prev: WordTiming, curr: WordTiming): real {
    curr.start - prev.end
  }

  /** What `Transcription.waits` lists: each word's pause before the next, and 0 after the last. */
  function WaitsOf(ts: seq<WordTiming>): (r: seq<real>)
    ensures |ts| < 2 ==> r == []
    ensures |ts| >= 2 ==> |r| == |ts| && r[|ts| - 1] == 0.0
    ensures |ts| >= 2 ==> forall k :: 0 <= k < |ts| - 1 ==> r[k] == Gap(ts[k], ts[k + 1])
  {
    if |ts| < 2 then []
    else seq(|ts|, k requires 0 <= k < |ts| => if k < |ts| - 1 then Gap(ts[k], ts[k + 1]) else 0.0)
  }

  /** `Transcription.waits`, computed over `pairwise` as the source does. */
  method Waits(t: Transcription) returns (waits: seq<real>)
    ensures waits == WaitsOf(t.timings)
  {
    var ts := t.timings;
    if |ts| < 2 {
      return [];
    }
    var pairs := Pairwise(ts);
    waits := [];
    for j := 0 to |pairs|
      invariant |waits| == j
      invariant forall k :: 0 <= k < j ==> waits[k] == Gap(ts[k], ts[k + 1])
    {
      var (a, b) := pairs[j];
      waits := waits + [b.start - a.end];
    }
    waits := waits + [0.0];
  }

  // ---------------------------------------------------------------------------------------------
  // get_segments

  function Flatten(segs: seq<Segment>): seq<WordTiming> {
    if segs == [] then [] else segs[0].words + Flatten(segs[1..])
  }

  lemma {:induction false} FlattenAppend(segs: seq<Segment>, s: Segment)
    ensures Flatten(segs + [s]) == Flatten(segs) + s.words
  {
    if segs != [] {
      assert (segs + [s])[1..] == segs[1..] + [s];
      FlattenAppend(segs[1..], s);
    }
  }

  /** No pause inside the run exceeds the tolerance. */
  predicate Cohesive(ws: seq<WordTiming>, tolerance: real) {
    forall k :: 0 <= k < |ws| - 1 ==> Gap(ws[k], ws[k + 1]) <= tolerance
  }

  /**
   * Segments split exactly at the long pauses: each is a non-empty cohesive run, and each but the
   * last records the pause to the next one, which exceeds the tolerance.
   */
  predicate SplitAtPauses(segs: seq<Segment>, tolerance: real) {
    && (forall k :: 0 <= k < |segs| ==> segs[k].words != [] && Cohesive(segs[k].words, tolerance))
    && (forall k :: 0 <= k < |segs| - 1 ==>
          && segs[k].waitAfter == Gap(segs[k].words[|segs[k].words| - 1], segs[k + 1].words[0])
          && segs[k].waitAfter > tolerance)
  }

  /** Extending the open run with a word after a short pause keeps the split. */
  lemma GrowBlock(segs: seq<Segment>, block: seq<WordTiming>, curr: WordTiming, tolerance: real)
    requires block != [] && Gap(block[|block| - 1], curr) <= tolerance
    requires SplitAtPauses(segs + [Segment(block, 0.0)], tolerance)
    ensures SplitAtPauses(segs + [Segment(block + [curr], 0.0)], tolerance)
  {
    var before := segs + [Segment(block, 0.0)];
    var after := segs + [Segment(block + [curr], 0.0)];
    assert Cohesive(block, tolerance) by {
      assert before[|segs|].words == block;
    }
    var grown := block + [curr];
    assert Cohesive(grown, tolerance) by {
      forall k | 0 <= k < |grown| - 1
        ensures Gap(grown[k], grown[k + 1]) <= tolerance
      {
        if k < |block| - 1 {
          assert grown[k] == block[k] && grown[k + 1] == block[k + 1];
        }
      }
    }
    forall k | 0 <= k < |after|
      ensures after[k].words != [] && Cohesive(after[k].words, tolerance)
    {
      if k < |segs| {
        assert after[k] == before[k];
      }
    }
    forall k | 0 <= k < |after| - 1
      ensures after[k].waitAfter == Gap(after[k].words[|after[k].words| - 1], after[k + 1].words[0])
      ensures after[k].waitAfter > tolerance
    {
      assert after[k] == before[k];
      assert after[k + 1].words[0] == before[k + 1].words[0];
    }
  }

  /** A long pause closes the open run, recording the pause, and opens a run with the new word. */
  lemma CloseBlock(segs: seq<Segment>, block: seq<WordTiming>, curr: WordTiming, tolerance: real)
    requires block != [] && Gap(block[|block| - 1], curr) > tolerance
    requires SplitAtPauses(segs + [Segment(block, 0.0)], tolerance)
    ensures SplitAtPauses(segs + [Segment(block, Gap(block[|block| - 1], curr))] + [Segment([curr], 0.0)], tolerance)
  {
    var before := segs + [Segment(block, 0.0)];
    var closed := Segment(block, Gap(block[|block| - 1], curr));
    var after := segs + [closed] + [Segment([curr], 0.0)];
    forall k | 0 <= k < |after|
      ensures after[k].words != [] && Cohesive(after[k].words, tolerance)
    {
      if k <= |segs| {
        assert after[k].words == before[k].words;
      }
    }
    forall k | 0 <= k < |after| - 1
      ensures after[k].waitAfter == Gap(after[k].words[|after[k].words| - 1], after[k + 1].words[0])
      ensures after[k].waitAfter > tolerance
    {
      if k < |segs| {
        assert after[k] == before[k];
        assert after[k + 1].words[0] == before[k + 1].words[0];
      }
    }
  }

  /** The loop of `get_segments` after the pair `(ts[j - 1], ts[j])`: closed runs, then the open one. */
  predicate SegmentsSoFar(ts: seq<WordTiming>, tolerance: real, j: nat, segs: seq<Segment>, block: seq<WordTiming>) {
    && j < |ts|
    && block != [] && block[|block| - 1] == ts[j]
    && Flatten(segs) + block == ts[..j + 1]
    && SplitAtPauses(segs + [Segment(block, 0.0)], tolerance)
  }

  /** One pair of the loop of `get_segments`: the next word grows the open run, or a long pause closes it. */
  method SegmentStep(ts: seq<WordTiming>, tolerance: real, j: nat, segs: seq<Segment>, block: seq<WordTiming>,
                     prev: WordTiming, curr: WordTiming)
    returns (segs': seq<Segment>, block': seq<WordTiming>)
    requires SegmentsSoFar(ts, tolerance, j, segs, block) && j + 1 < |ts|
    requires prev == ts[j] && curr == ts[j + 1]
    ensures SegmentsSoFar(ts, tolerance, j + 1, segs', block')
  {
    var wait := curr.start - prev.end;
    TakeSnoc(ts, j + 1);
    if wait <= tolerance {
      GrowBlock(segs, block, curr, tolerance);
      ConcatAssoc(Flatten(segs), block, [curr]);
      segs', block' := segs, block + [curr];
    } else {
      CloseBlock(segs, block, curr, tolerance);
      FlattenAppend(segs, Segment(block, wait));
      segs', block' := segs + [Segment(block, wait)], [curr];
    }
  }

  /** `list(t.get_segments(tolerance))`. */
  method GetSegments(t: Transcription, tolerance: real) returns (segs: seq<Segment>)
    ensures |t.timings| < 2 ==> segs == [Segment(t.timings, 0.0)]
    ensures segs != [] && segs[|segs| - 1].waitAfter == 0.0
    ensures Flatten(segs) == t.timings
    ensures t.timings != [] ==> SplitAtPauses(segs, tolerance)
  {
    var ts := t.timings;
    if |ts| < 2 {
      return [Segment(ts, 0.0)];
    }
    var block := [ts[0]];
    segs := [];
    var pairs := Pairwise(ts);
    for j := 0 to |pairs|
      invariant SegmentsSoFar(ts, tolerance, j, segs, block)
    {
      var (prev, curr) := pairs[j];
      assert pairs[j] == (ts[j], ts[j + 1]);
      segs, block := SegmentStep(ts, tolerance, j, segs, block, prev, curr);
    }
    FlattenAppend(segs, Segment(block, 0.0));
    segs := segs + [Segment(block, 0.0)];
    assert ts[..|pairs| + 1] == ts;
  }

  // ---------------------------------------------------------------------------------------------
  // get_fragment

  /**
   * One block of `diff_blocks(a, b)`: the items only in `a`, the items only in `b`, and the run
   * that both share after them. `diff_blocks` itself is not part of this model: its blocks are
   * an input.
   */
  datatype DiffBlock = DiffBlock(aOnly: seq<string>, bOnly: seq<string>, matching: seq<string>)

  /**
   * `t.get_fragment(fragment)` given the blocks `diff_blocks(t.words, fragment.split())` yields:
   * the words from the length of the first block's head, as many as its matched run, with the
   * clamping of a Python slice; StopIteration when there is no block.
   */
  function GetFragment(t: Transcription, blocks: seq<DiffBlock>): (r: Result<Segment>)
    ensures r.Err? <==> blocks == []
    ensures r.Err? ==> r.error == StopIteration
    ensures r.Ok? ==> r.value.waitAfter == 0.0
    ensures r.Ok? ==>
      var i := Min(|blocks[0].aOnly|, |t.timings|);
      var j := Min(|blocks[0].aOnly| + |blocks[0].matching|, |t.timings|);
      r.value.words == t.timings[i..j]
  {
    if blocks == [] then Err(StopIteration)
    else
      var i := |blocks[0].aOnly|;
      var n := |blocks[0].matching|;
      var ts := t.timings;
      var lo := if i <= |ts| then i else |ts|;
      var hi := if i + n <= |ts| then i + n else |ts|;
      Ok(Segment(ts[lo..hi], 0.0))
  }

  /**
   * When the first block lines up with the transcript's words (its head is the words before the
   * match, its run the words after), the fragment holds exactly the matched words.
   */
  lemma FragmentIsMatch(t: Transcription, blocks: seq<DiffBlock>)
    requires blocks != []
    requires |blocks[0].aOnly| + |blocks[0].matching| <= |t.timings|
    requires Words(t)[|blocks[0].aOnly|..|blocks[0].aOnly| + |blocks[0].matching|] == blocks[0].matching
    ensures GetFragment(t, blocks).Ok?
    ensures Stripped(GetFragment(t, blocks).value.words) == blocks[0].matching
    ensures SegmentStr(GetFragment(t, blocks).value) == Join(blocks[0].matching, " ")
  {
    var i := |blocks[0].aOnly|;
    var n := |blocks[0].matching|;
    assert GetFragment(t, blocks).value.words == t.timings[i..i + n];
    StrippedSlice(t.timings, i, i + n);
  }

  // ---------------------------------------------------------------------------------------------
  // cue files

  /** A parsed row of an Adobe Audition cue file: Name, Start, Duration, Time Format, Type, Description. */
  datatype AuditionRow = AuditionRow(name: string, start: real, duration: real, timeFormat: string, kind: string, description: string)

  /** A parsed row of an Audacity label file: Start, End, Comment. */
  datatype AudacityRow = AudacityRow(start: real, end: real, comment: string)

  /** The word one Audition row describes: its description, from its start for its duration. */
  function FromAuditionRow(row: AuditionRow): (w: WordTiming)
    ensures w.word == row.description && w.start == row.start && w.end - w.start == row.duration
    ensures w.probability.None?
  {
    Timed(row.description, row.start, row.start + row.duration)
  }

  /** `Transcription.from_audition_cue` over the rows after the header line. */
  function FromAuditionCue(rows: seq<AuditionRow>): (t: Transcription)
    ensures |t.timings| == |rows| && t.model.None?
    ensures forall k :: 0 <= k < |rows| ==> t.timings[k] == FromAuditionRow(rows[k])
  {
    Transcription(seq(|rows|, k requires 0 <= k < |rows| => FromAuditionRow(rows[k])), None)
  }

  /** The word one Audacity row describes. */
  function FromAudacityRow(row: AudacityRow): (w: WordTiming)
    ensures w.word == row.comment && w.start == row.start && w.end == row.end
    ensures w.probability.None?
  {
    Timed(row.comment, row.start, row.end)
  }

  /** `Transcription.from_audacity_cue` over all rows (the file has no header). */
  function FromAudacityCue(rows: seq<AudacityRow>): (t: Transcription)
    ensures |t.timings| == |rows| && t.model.None?
    ensures forall k :: 0 <= k < |rows| ==> t.timings[k] == FromAudacityRow(rows[k])
  {
    Transcription(seq(|rows|, k requires 0 <= k < |rows| => FromAudacityRow(rows[k])), None)
  }

  /** The rows `_export_audacity_cue` writes, before their times are formatted. */
  function AudacityRows(t: Transcription): (rows: seq<AudacityRow>)
    ensures |rows| == |t.timings|
  {
    seq(|t.timings|, k requires 0 <= k < |t.timings| =>
      AudacityRow(t.timings[k].start, t.timings[k].end, t.timings[k].word))
  }

  /** The rows `_export_audition_cue` writes, before their times are formatted. */
  function AuditionRows(t: Transcription, markerNames: seq<string>): (rows: seq<AuditionRow>)
    requires |markerNames| == |t.timings|
    ensures |rows| == |t.timings|
  {
    seq(|t.timings|, k requires 0 <= k < |t.timings| =>
      var w := t.timings[k];
      AuditionRow(markerNames[k], w.start, w.end - w.start, "decimal", "Cue", w.word))
  }

  predicate Unscored(ts: seq<WordTiming>) {
    forall k :: 0 <= k < |ts| ==> ts[k].probability.None?
  }

  /** Reading back an exported Audacity label file gives the same words and times. */
  lemma AudacityRoundTrip(t: Transcription)
    requires Unscored(t.timings)
    ensures FromAudacityCue(AudacityRows(t)).timings == t.timings
  {
    var back := FromAudacityCue(AudacityRows(t)).timings;
    assert forall k :: 0 <= k < |back| ==> back[k] == t.timings[k];
  }

  /** Reading back an exported Audition cue file gives the same words and times. */
  lemma AuditionRoundTrip(t: Transcription, markerNames: seq<string>)
    requires |markerNames| == |t.timings|
    requires Unscored(t.timings)
    ensures FromAuditionCue(AuditionRows(t, markerNames)).timings == t.timings
  {
    var back := FromAuditionCue(AuditionRows(t, markerNames)).timings;
    assert forall k :: 0 <= k < |back| ==> back[k] == t.timings[k];
  }

  // ---------------------------------------------------------------------------------------------
  // the whisper result dictionary

  /** One entry of `whisper_result["segments"]`. */
  datatype WhisperSegment = WhisperSegment(start: real, end: real, text: string, words: seq<WordTiming>)

  /** `whisper_result`: its language (if present), full text and segments. */
  datatype WhisperResult = WhisperResult(language: Option<string>, text: string, segments: seq<WhisperSegment>)
}
