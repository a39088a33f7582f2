/**
 * astral.py: the free functions of the astral tool, which writes ATL image code alternating an
 * open-mouth and a closed-mouth image and re-annotates such code after it has been edited. Unlike
 * the generator of stlr/vn.py, every frame loop starts a fresh image cycle at the open mouth,
 * annotation windows are half-open, entries are written to two places, and a frame loop that
 * runs no turn leaves its image variable unbound. `truncate_path` is the function of
 * stlr/utils.py, `Utils.TruncatePath`.
 */
module Astral {
  import opened Wrappers
  import opened Text
  import opened Format
  import opened Utils
  import opened Transcribe
  import opened Boundaries
  import Vn

  // ---------------------------------------------------------------------------------------------
  // word_boundaries_in_range

  /** The end entries, `(t.word, t.end, "end")` for the words with `start <= t.end < end`, in transcript order. */
  function EndsIn(ts: seq<WordTiming>, start: real, end: real): (r: seq<Boundary>)
    ensures |r| <= |ts|
  {
    if ts == [] then []
    else (if start <= ts[0].end < end then [Boundary(ts[0].word, ts[0].end, End)] else []) + EndsIn(ts[1..], start, end)
  }

  /** The start entries as written: `(t.word, t.end, "start")` for the words with `start <= t.start < end`. */
  function StartsIn(ts: seq<WordTiming>, start: real, end: real): (r: seq<Boundary>)
    ensures |r| <= |ts|
  {
    if ts == [] then []
    else (if start <= ts[0].start < end then [Boundary(ts[0].word, ts[0].end, Start)] else []) + StartsIn(ts[1..], start, end)
  }

  /** `word_boundaries_in_range(transcription, start, end)`: all end entries, then all start entries. */
  function WordBoundariesInRange(ts: seq<WordTiming>, start: real, end: real): (r: seq<Boundary>)
    ensures |r| <= 2 * |ts|
  {
    EndsIn(ts, start, end) + StartsIn(ts, start, end)
  }

  /** Every end entry is the entry of a word that ends in the window. */
  lemma {:induction false} EndsInSound(ts: seq<WordTiming>, start: real, end: real)
    ensures forall b :: b in EndsIn(ts, start, end) ==>
      exists j :: 0 <= j < |ts| && start <= ts[j].end < end && b == Boundary(ts[j].word, ts[j].end, End)
  {
    if ts != [] {
      EndsInSound(ts[1..], start, end);
      var head := if start <= ts[0].end < end then [Boundary(ts[0].word, ts[0].end, End)] else [];
      assert EndsIn(ts, start, end) == head + EndsIn(ts[1..], start, end);
      forall b | b in EndsIn(ts[1..], start, end)
        ensures exists j :: 0 <= j < |ts| && start <= ts[j].end < end && b == Boundary(ts[j].word, ts[j].end, End)
      {
        var j :| 0 <= j < |ts[1..]| && start <= ts[1..][j].end < end && b == Boundary(ts[1..][j].word, ts[1..][j].end, End);
        assert ts[j + 1] == ts[1..][j];
      }
    }
  }

  /** Every word that ends in the window has its end entry. */
  lemma {:induction false} EndsInComplete(ts: seq<WordTiming>, start: real, end: real)
    ensures forall k :: 0 <= k < |ts| && start <= ts[k].end < end ==> Boundary(ts[k].word, ts[k].end, End) in EndsIn(ts, start, end)
  {
    if ts != [] {
      EndsInComplete(ts[1..], start, end);
      var head := if start <= ts[0].end < end then [Boundary(ts[0].word, ts[0].end, End)] else [];
      assert EndsIn(ts, start, end) == head + EndsIn(ts[1..], start, end);
      forall k | 1 <= k < |ts|
        ensures ts[k] == ts[1..][k - 1]
      {
      }
    }
  }

  /**
   * The end entries are the words that end in the half-open window: each entry is an end
   * recorded in it, and every word that ends in it has its entry; there are none exactly when
   * no word ends there.
   */
  lemma EndsInAre(ts: seq<WordTiming>, start: real, end: real)
    ensures var r := EndsIn(ts, start, end);
      && AllOfKind(r, End)
      && (forall k :: 0 <= k < |r| ==> start <= r[k].time < end)
      && (forall k :: 0 <= k < |r| ==> exists j :: 0 <= j < |ts| && start <= ts[j].end < end
                                              && r[k] == Boundary(ts[j].word, ts[j].end, End))
      && (forall k :: 0 <= k < |ts| && start <= ts[k].end < end ==> Boundary(ts[k].word, ts[k].end, End) in r)
      && (r == [] <==> forall k :: 0 <= k < |ts| ==> !(start <= ts[k].end < end))
  {
    var r := EndsIn(ts, start, end);
    EndsInSound(ts, start, end);
    EndsInComplete(ts, start, end);
    forall k | 0 <= k < |r|
      ensures r[k].kind == End && start <= r[k].time < end
      ensures exists j :: 0 <= j < |ts| && start <= ts[j].end < end && r[k] == Boundary(ts[j].word, ts[j].end, End)
    {
      assert r[k] in r;
    }
    if r != [] {
      assert r[0] in r;
    }
  }

  /** Every start entry as written is the entry of a word that starts in the window, recorded at its end. */
  lemma {:induction false} StartsInSound(ts: seq<WordTiming>, start: real, end: real)
    ensures forall b :: b in StartsIn(ts, start, end) ==>
      exists j :: 0 <= j < |ts| && start <= ts[j].start < end && b == Boundary(ts[j].word, ts[j].end, Start)
  {
    if ts != [] {
      StartsInSound(ts[1..], start, end);
      var head := if start <= ts[0].start < end then [Boundary(ts[0].word, ts[0].end, Start)] else [];
      assert StartsIn(ts, start, end) == head + StartsIn(ts[1..], start, end);
      forall b | b in StartsIn(ts[1..], start, end)
        ensures exists j :: 0 <= j < |ts| && start <= ts[j].start < end && b == Boundary(ts[j].word, ts[j].end, Start)
      {
        var j :| 0 <= j < |ts[1..]| && start <= ts[1..][j].start < end && b == Boundary(ts[1..][j].word, ts[1..][j].end, Start);
        assert ts[j + 1] == ts[1..][j];
      }
    }
  }

  /** Every word that starts in the window has its start entry as written. */
  lemma {:induction false} StartsInComplete(ts: seq<WordTiming>, start: real, end: real)
    ensures forall k :: 0 <= k < |ts| && start <= ts[k].start < end ==> Boundary(ts[k].word, ts[k].end, Start) in StartsIn(ts, start, end)
  {
    if ts != [] {
      StartsInComplete(ts[1..], start, end);
      var head := if start <= ts[0].start < end then [Boundary(ts[0].word, ts[0].end, Start)] else [];
      assert StartsIn(ts, start, end) == head + StartsIn(ts[1..], start, end);
      forall k | 1 <= k < |ts|
        ensures ts[k] == ts[1..][k - 1]
      {
      }
    }
  }

  /**
   * The start entries as written are the words that start in the half-open window, each
   * recorded at the word's end rather than its start.
   */
  lemma StartsInAre(ts: seq<WordTiming>, start: real, end: real)
    ensures var r := StartsIn(ts, start, end);
      && AllOfKind(r, Start)
      && (forall k :: 0 <= k < |r| ==> exists j :: 0 <= j < |ts| && start <= ts[j].start < end
                                              && r[k] == Boundary(ts[j].word, ts[j].end, Start))
      && (forall k :: 0 <= k < |ts| && start <= ts[k].start < end ==> Boundary(ts[k].word, ts[k].end, Start) in r)
  {
    var r := StartsIn(ts, start, end);
    StartsInSound(ts, start, end);
    StartsInComplete(ts, start, end);
    forall k | 0 <= k < |r|
      ensures r[k].kind == Start
      ensures exists j :: 0 <= j < |ts| && start <= ts[j].start < end && r[k] == Boundary(ts[j].word, ts[j].end, Start)
    {
      assert r[k] in r;
    }
  }

  /** `word_boundaries_in_range` (as written) can record a start entry outside its own window. */
  lemma StartEntryOutsideWindow()
    ensures var bs := WordBoundariesInRange([WordTiming("hello", 0.1, 0.5, None)], 0.0, 0.2);
      bs == [Boundary("hello", 0.5, Start)] && !(0.0 <= bs[0].time < 0.2)
  {
    var ts := [WordTiming("hello", 0.1, 0.5, None)];
    assert EndsIn(ts[1..], 0.0, 0.2) == [] && StartsIn(ts[1..], 0.0, 0.2) == [];
  }

  /** The start entries as evidently intended: `(t.word, t.start, "start")`. */
  function IntendedStartsIn(ts: seq<WordTiming>, start: real, end: real): (r: seq<Boundary>)
    ensures |r| <= |ts|
  {
    if ts == [] then []
    else (if start <= ts[0].start < end then [Boundary(ts[0].word, ts[0].start, Start)] else []) + IntendedStartsIn(ts[1..], start, end)
  }

  /** The boundaries in a window with every start entry recorded at its word's start. */
  function IntendedBoundaries(ts: seq<WordTiming>, start: real, end: real): (r: seq<Boundary>)
    ensures |r| <= 2 * |ts|
  {
    EndsIn(ts, start, end) + IntendedStartsIn(ts, start, end)
  }

  /** Every corrected start entry is the entry of a word that starts in the window, recorded at its start. */
  lemma {:induction false} IntendedStartsInSound(ts: seq<WordTiming>, start: real, end: real)
    ensures forall b :: b in IntendedStartsIn(ts, start, end) ==>
      exists j :: 0 <= j < |ts| && start <= ts[j].start < end && b == Boundary(ts[j].word, ts[j].start, Start)
  {
    if ts != [] {
      IntendedStartsInSound(ts[1..], start, end);
      var head := if start <= ts[0].start < end then [Boundary(ts[0].word, ts[0].start, Start)] else [];
      assert IntendedStartsIn(ts, start, end) == head + IntendedStartsIn(ts[1..], start, end);
      forall b | b in IntendedStartsIn(ts[1..], start, end)
        ensures exists j :: 0 <= j < |ts| && start <= ts[j].start < end && b == Boundary(ts[j].word, ts[j].start, Start)
      {
        var j :| 0 <= j < |ts[1..]| && start <= ts[1..][j].start < end && b == Boundary(ts[1..][j].word, ts[1..][j].start, Start);
        assert ts[j + 1] == ts[1..][j];
      }
    }
  }

  /** Every word that starts in the window has its corrected start entry. */
  lemma {:induction false} IntendedStartsInComplete(ts: seq<WordTiming>, start: real, end: real)
    ensures forall k :: 0 <= k < |ts| && start <= ts[k].start < end ==>
      Boundary(ts[k].word, ts[k].start, Start) in IntendedStartsIn(ts, start, end)
  {
    if ts != [] {
      IntendedStartsInComplete(ts[1..], start, end);
      var head := if start <= ts[0].start < end then [Boundary(ts[0].word, ts[0].start, Start)] else [];
      assert IntendedStartsIn(ts, start, end) == head + IntendedStartsIn(ts[1..], start, end);
      forall k | 1 <= k < |ts|
        ensures ts[k] == ts[1..][k - 1]
      {
      }
    }
  }

  lemma IntendedStartsInAre(ts: seq<WordTiming>, start: real, end: real)
    ensures var r := IntendedStartsIn(ts, start, end);
      && AllOfKind(r, Start)
      && (forall k :: 0 <= k < |r| ==> start <= r[k].time < end)
      && (forall k :: 0 <= k < |ts| && start <= ts[k].start < end ==> Boundary(ts[k].word, ts[k].start, Start) in r)
  {
    var r := IntendedStartsIn(ts, start, end);
    IntendedStartsInSound(ts, start, end);
    IntendedStartsInComplete(ts, start, end);
    forall k | 0 <= k < |r|
      ensures r[k].kind == Start && start <= r[k].time < end
    {
      assert r[k] in r;
    }
  }

  /**
   * The corrected boundaries lie in the window they were asked for: every entry is recorded at
   * a time in `[start, end)`, and every word that ends or starts there has its entry.
   */
  lemma IntendedBoundariesInWindow(ts: seq<WordTiming>, start: real, end: real)
    ensures var r := IntendedBoundaries(ts, start, end);
      forall k :: 0 <= k < |r| ==> start <= r[k].time < end
    ensures forall k :: 0 <= k < |ts| && start <= ts[k].start < end ==>
      Boundary(ts[k].word, ts[k].start, Start) in IntendedBoundaries(ts, start, end)
    ensures forall k :: 0 <= k < |ts| && start <= ts[k].end < end ==>
      Boundary(ts[k].word, ts[k].end, End) in IntendedBoundaries(ts, start, end)
  {
    var ends, starts := EndsIn(ts, start, end), IntendedStartsIn(ts, start, end);
    EndsInAre(ts, start, end);
    IntendedStartsInAre(ts, start, end);
    var r := ends + starts;
    forall k | 0 <= k < |r|
      ensures start <= r[k].time < end
    {
      if k < |ends| {
        assert r[k] == ends[k];
      } else {
        assert r[k] == starts[k - |ends|];
      }
    }
  }

  // ---------------------------------------------------------------------------------------------
  // create_annotation

  /** The entries of one kind, in their order. */
  function OfKind(bs: seq<Boundary>, kind: Kind): (r: seq<Boundary>)
    ensures AllOfKind(r, kind) && |r| <= |bs|
  {
    if bs == [] then []
    else (if bs[0].kind == kind then [bs[0]] else []) + OfKind(bs[1..], kind)
  }

  lemma {:induction false} OfKindAppend(a: seq<Boundary>, b: seq<Boundary>, kind: Kind)
    ensures OfKind(a + b, kind) == OfKind(a, kind) + OfKind(b, kind)
  {
    if a == [] {
      assert a + b == b;
    } else {
      var head := if a[0].kind == kind then [a[0]] else [];
      assert (a + b)[0] == a[0] && (a + b)[1..] == a[1..] + b;
      assert OfKind(a + b, kind) == head + OfKind(a[1..] + b, kind);
      OfKindAppend(a[1..], b, kind);
      ConcatAssoc(head, OfKind(a[1..], kind), OfKind(b, kind));
    }
  }

  /** Filtering a list of one kind keeps all of it, and filtering it for another kind keeps nothing. */
  lemma {:induction false} OfKindOfKind(bs: seq<Boundary>, kind: Kind, other: Kind)
    requires AllOfKind(bs, kind)
    ensures OfKind(bs, kind) == bs
    ensures other != kind ==> OfKind(bs, other) == []
  {
    if bs != [] {
      OfKindOfKind(bs[1..], kind, other);
      assert bs == [bs[0]] + bs[1..];
    }
  }

  /**
   * The annotation of a window from its boundaries: terse, the words of the end entries joined
   * by single spaces after "  # " (nothing when there are none); verbose, the window's times
   * and every entry, sorted by time, with the trailing whitespace stripped.
   */
  function Annotation(f: Formats, bs: seq<Boundary>, start: real, end: real, verbose: bool): (r: string)
    ensures Vn.IsComment(r)
    ensures verbose ==> r != ""
  {
    if !verbose then
      var endings := Vn.BoundaryWords(OfKind(bs, End));
      if endings == [] then "" else "  # " + Join(endings, " ")
    else
      var s := "  # animation time: " + f.fixed(start, 2) + " → " + f.fixed(end, 2) + " "
               + Join(Vn.EntryTexts(f, SortByTime(bs)), " ");
      assert s[..3] == "  #";
      Vn.RStripComment(s);
      RStrip(s)
  }

  /** `create_annotation(transcription, frame_start, frame_end, verbose=…)`. */
  function CreateAnnotation(f: Formats, ts: seq<WordTiming>, start: real, end: real, verbose: bool): (r: string)
    ensures Vn.IsComment(r)
    ensures verbose ==> r != ""
  {
    Annotation(f, WordBoundariesInRange(ts, start, end), start, end, verbose)
  }

  /**
   * The terse annotation names the words that end in the window, in transcript order, joined by
   * single spaces; it is empty exactly when no word ends there.
   */
  lemma TerseAnnotation(f: Formats, ts: seq<WordTiming>, start: real, end: real)
    ensures CreateAnnotation(f, ts, start, end, false) == "" <==>
      forall k :: 0 <= k < |ts| ==> !(start <= ts[k].end < end)
    ensures var ends := EndsIn(ts, start, end);
      ends != [] ==> CreateAnnotation(f, ts, start, end, false) == "  # " + Join(Vn.BoundaryWords(ends), " ")
  {
    var ends, starts := EndsIn(ts, start, end), StartsIn(ts, start, end);
    EndsInAre(ts, start, end);
    StartsInAre(ts, start, end);
    OfKindAppend(ends, starts, End);
    OfKindOfKind(ends, End, Start);
    OfKindOfKind(starts, Start, End);
    assert OfKind(ends + starts, End) == ends;
  }

  /**
   * The verbose annotation lists every entry of the window sorted by time; at any one time the
   * end entries come before the start entries, each in transcript order.
   */
  lemma VerboseEntries(ts: seq<WordTiming>, start: real, end: real, t: real)
    ensures var bs := WordBoundariesInRange(ts, start, end);
      && SortedByTime(SortByTime(bs)) && multiset(SortByTime(bs)) == multiset(bs)
      && At(SortByTime(bs), t) == At(EndsIn(ts, start, end), t) + At(StartsIn(ts, start, end), t)
      && AllOfKind(At(EndsIn(ts, start, end), t), End) && AllOfKind(At(StartsIn(ts, start, end), t), Start)
  {
    var ends, starts := EndsIn(ts, start, end), StartsIn(ts, start, end);
    EndsInAre(ts, start, end);
    StartsInAre(ts, start, end);
    SortSorted(ends + starts);
    SortElements(ends + starts);
    EndsBeforeStarts(ends, starts, t);
  }

  // ---------------------------------------------------------------------------------------------
  // alternate_frames_for_duration

  /** What a delay line says about the window `[start, end)` it covers. */
  type Annotator = (real, real) -> string

  /** The annotations `create_annotation` writes for a transcript. */
  function Annotate(f: Formats, ts: seq<WordTiming>, verbose: bool): Annotator {
    (start: real, end: real) => CreateAnnotation(f, ts, start, end, verbose)
  }

  /** Every annotation is empty or a comment. */
  ghost predicate Comments(annotate: Annotator) {
    forall start: real, end: real :: Vn.IsComment(annotate(start, end))
  }

  lemma AnnotateComments(f: Formats, ts: seq<WordTiming>, verbose: bool)
    ensures Comments(Annotate(f, ts, verbose))
  {
    forall start: real, end: real
      ensures Vn.IsComment(Annotate(f, ts, verbose)(start, end))
    {
      assert Annotate(f, ts, verbose)(start, end) == CreateAnnotation(f, ts, start, end, verbose);
    }
  }

  /** The image a fresh `cycle([open_image, closed_image])` gives on its `k`-th turn, counting from 0. */
  function CycleImage(open: string, closed: string, k: nat): string {
    if k % 2 == 0 then open else closed
  }

  /** The delay line of the frame at `time`: the step to two places, then the frame's annotation. */
  function DelayLine(f: Formats, annotate: Annotator, step: real, time: real): string {
    "    " + f.fixed(step, 2) + annotate(time, time + step)
  }

  /** The delay lines of the frames at the given times. */
  function DelayLines(f: Formats, annotate: Annotator, step: real, times: seq<real>): (r: seq<string>)
    ensures |r| == |times|
  {
    seq(|times|, k requires 0 <= k < |times| => DelayLine(f, annotate, step, times[k]))
  }

  /** Two lines a frame: the cycle's `k`-th image, then the `k`-th of the given delay lines. */
  function Interleave(open: string, closed: string, delays: seq<string>): (r: seq<string>)
    ensures |r| == 2 * |delays|
  {
    if delays == [] then []
    else
      var n := |delays| - 1;
      Interleave(open, closed, delays[..n]) + [Vn.ImageLine(CycleImage(open, closed, n)), delays[n]]
  }

  /** The two lines of each frame: the cycle's image, then the delay line of the frame's time. */
  function FrameLines(f: Formats, annotate: Annotator, open: string, closed: string, times: seq<real>,
                      step: real): (r: seq<string>)
    ensures |r| == 2 * |times|
  {
    Interleave(open, closed, DelayLines(f, annotate, step, times))
  }

  /** Lines `2 * k` and `2 * k + 1` are the `k`-th image of the cycle and the `k`-th delay line. */
  lemma {:induction false} InterleaveAt(open: string, closed: string, delays: seq<string>, k: nat)
    requires k < |delays|
    ensures var r := Interleave(open, closed, delays);
      r[2 * k] == Vn.ImageLine(CycleImage(open, closed, k)) && r[2 * k + 1] == delays[k]
  {
    var n := |delays| - 1;
    PairAt(Interleave(open, closed, delays[..n]), Vn.ImageLine(CycleImage(open, closed, n)), delays[n]);
    if k < n {
      InterleaveAt(open, closed, delays[..n], k);
    }
  }

  /** One more delay line adds one more frame at the end. */
  lemma InterleaveExtend(open: string, closed: string, delays: seq<string>, i: nat)
    requires i < |delays|
    ensures Interleave(open, closed, delays[..i + 1])
         == Interleave(open, closed, delays[..i]) + [Vn.ImageLine(CycleImage(open, closed, i)), delays[i]]
  {
    assert delays[..i + 1][..i] == delays[..i];
  }

  /** The lines of a frame loop and the image its last turn bound. */
  datatype Frames = Frames(lines: seq<string>, last: string)

  /** The frames for the given times: UnboundLocalError when there are none, as `img` is then never bound. */
  function FramesOf(f: Formats, annotate: Annotator, open: string, closed: string, times: seq<real>,
                    step: real): (r: Result<Frames>)
  {
    if times == [] then Err(UnboundLocalError)
    else Ok(Frames(FrameLines(f, annotate, open, closed, times, step), CycleImage(open, closed, |times| - 1)))
  }

  /** What `alternate_frames_for_duration` returns: one frame per value of `arange(start, start + duration, step)`. */
  function FramesFor(f: Formats, annotate: Annotator, open: string, closed: string, duration: real, start: real,
                     step: real): (r: Result<Frames>)
    requires step != 0.0
  {
    FramesOf(f, annotate, open, closed, FRangeSeq(start, start + duration, step), step)
  }

  /**
   * The images of the frames for any list of times: they alternate the open and the closed
   * mouth starting with the open one, two lines a frame, and the last frame shows the image
   * the loop leaves bound; with no times there are no frames and `img` is never bound.
   */
  lemma FramesOfImages(f: Formats, annotate: Annotator, open: string, closed: string, times: seq<real>, step: real)
    ensures var r := FramesOf(f, annotate, open, closed, times, step);
      && (r.Err? <==> times == [])
      && (r.Err? ==> r.error == UnboundLocalError)
      && (r.Ok? ==> |r.value.lines| == 2 * |times| && r.value.last == CycleImage(open, closed, |times| - 1)
                    && r.value.lines[0] == Vn.ImageLine(open)
                    && r.value.lines[2 * |times| - 2] == Vn.ImageLine(r.value.last))
      && (r.Ok? ==> forall k :: 0 <= k < |times| ==> r.value.lines[2 * k] == Vn.ImageLine(CycleImage(open, closed, k)))
  {
    if times != [] {
      var delays := DelayLines(f, annotate, step, times);
      var lines := Interleave(open, closed, delays);
      forall k | 0 <= k < |times|
        ensures lines[2 * k] == Vn.ImageLine(CycleImage(open, closed, k))
      {
        InterleaveImageAt(open, closed, delays, k);
      }
      InterleaveImageAt(open, closed, delays, 0);
      InterleaveImageAt(open, closed, delays, |times| - 1);
    }
  }

  /** Line `2 * k` is the cycle's `k`-th image. */
  lemma {:induction false} InterleaveImageAt(open: string, closed: string, delays: seq<string>, k: nat)
    requires k < |delays|
    ensures Interleave(open, closed, delays)[2 * k] == Vn.ImageLine(CycleImage(open, closed, k))
  {
    var n := |delays| - 1;
    PairAt(Interleave(open, closed, delays[..n]), Vn.ImageLine(CycleImage(open, closed, n)), delays[n]);
    if k < n {
      InterleaveImageAt(open, closed, delays[..n], k);
    }
  }

  /** For a positive step, the range from `start` over `duration` is empty exactly when the duration is not positive. */
  lemma FRangeEmpty(start: real, duration: real, step: real)
    requires step != 0.0
    ensures step > 0.0 ==> (FRangeSeq(start, start + duration, step) == [] <==> duration <= 0.0)
  {
    FRangeBefore(start, start + duration, step, 0);
    assert NthValue(start, step, 0) == start;
  }

  /**
   * The images of the frames: they alternate the open and the closed mouth starting with the
   * open one, two lines a frame, and the last image is the cycle's image of the last frame.
   * There are no frames, and so an UnboundLocalError, exactly when the range is empty: for a
   * positive step, when the duration is not positive.
   */
  lemma FramesForImages(f: Formats, annotate: Annotator, open: string, closed: string, duration: real, start: real,
                        step: real)
    requires step != 0.0
    ensures var times, r := FRangeSeq(start, start + duration, step), FramesFor(f, annotate, open, closed, duration, start, step);
      && (r.Err? <==> times == [])
      && (r.Err? ==> r.error == UnboundLocalError)
      && (step > 0.0 ==> (r.Err? <==> duration <= 0.0))
      && (r.Ok? ==> |r.value.lines| == 2 * |times| && r.value.last == CycleImage(open, closed, |times| - 1)
                    && r.value.lines[0] == Vn.ImageLine(open)
                    && r.value.lines[2 * |times| - 2] == Vn.ImageLine(r.value.last))
      && (r.Ok? ==> forall k :: 0 <= k < |times| ==> r.value.lines[2 * k] == Vn.ImageLine(CycleImage(open, closed, k)))
  {
    FramesOfImages(f, annotate, open, closed, FRangeSeq(start, start + duration, step), step);
    FRangeEmpty(start, duration, step);
  }

  /**
   * The frames as `FramesForImages` states them, with the `k`-th delay line annotating
   * `[start + k * step, start + (k + 1) * step)`.
   */
  lemma FramesForShape(f: Formats, annotate: Annotator, open: string, closed: string, duration: real, start: real,
                       step: real)
    requires step != 0.0
    ensures var times, r := FRangeSeq(start, start + duration, step), FramesFor(f, annotate, open, closed, duration, start, step);
      && (r.Err? <==> times == [])
      && (r.Err? ==> r.error == UnboundLocalError)
      && (step > 0.0 ==> (r.Err? <==> duration <= 0.0))
      && (r.Ok? ==> |r.value.lines| == 2 * |times| && r.value.last == CycleImage(open, closed, |times| - 1)
                    && r.value.lines[0] == Vn.ImageLine(open))
      && (r.Ok? ==> forall k :: 0 <= k < |times| ==>
            r.value.lines[2 * k] == Vn.ImageLine(CycleImage(open, closed, k))
            && r.value.lines[2 * k + 1] == DelayLine(f, annotate, step, start + k as real * step))
  {
    var times := FRangeSeq(start, start + duration, step);
    FramesForImages(f, annotate, open, closed, duration, start, step);
    var lines := FrameLines(f, annotate, open, closed, times, step);
    forall k | 0 <= k < |times|
      ensures lines[2 * k + 1] == DelayLine(f, annotate, step, start + k as real * step)
    {
      InterleaveAt(open, closed, DelayLines(f, annotate, step, times), k);
      assert times[k] == NthValue(start, step, k);
    }
  }

  /** A delay line carries its step, when the step is written in a form that reads back exactly. */
  lemma DelayLineDelay(f: Formats, annotate: Annotator, step: real, time: real)
    requires Comments(annotate) && RendersExactly(f.fixed(step, 2), step)
    ensures Delay(DelayLine(f, annotate, step, time)) == step
  {
    Vn.DelayBeforeComment("    ", f.fixed(step, 2), annotate(time, time + step), step);
  }

  /** Image lines add nothing; delay lines of `x` each add `x`. */
  lemma {:induction false} InterleaveTotal(open: string, closed: string, delays: seq<string>, x: real)
    requires forall k :: 0 <= k < |delays| ==> Delay(delays[k]) == x
    ensures TotalDelay(Interleave(open, closed, delays)) == Vn.Steps(|delays|, x)
  {
    if delays != [] {
      var n := |delays| - 1;
      InterleaveTotal(open, closed, delays[..n], x);
      InterleaveExtend(open, closed, delays, n);
      assert delays[..n + 1] == delays;
      TotalDelayPair(Interleave(open, closed, delays[..n]), Vn.ImageLine(CycleImage(open, closed, n)), delays[n]);
      Vn.ImageLineDelay(CycleImage(open, closed, n));
    }
  }

  lemma FrameLinesTotal(f: Formats, annotate: Annotator, open: string, closed: string, times: seq<real>,
                        step: real)
    requires Comments(annotate) && RendersExactly(f.fixed(step, 2), step)
    ensures TotalDelay(FrameLines(f, annotate, open, closed, times, step)) == Vn.Steps(|times|, step)
  {
    var delays := DelayLines(f, annotate, step, times);
    forall k | 0 <= k < |delays|
      ensures Delay(delays[k]) == step
    {
      DelayLineDelay(f, annotate, step, times[k]);
    }
    InterleaveTotal(open, closed, delays, step);
  }

  /**
   * The frames cover at least the requested duration: for a positive step whose written form
   * reads back exactly, their delays add up to one step per frame, and that reaches `duration`.
   */
  lemma FramesCover(f: Formats, annotate: Annotator, open: string, closed: string, duration: real, start: real,
                    step: real)
    requires Comments(annotate) && step > 0.0 && RendersExactly(f.fixed(step, 2), step)
    ensures var r := FramesFor(f, annotate, open, closed, duration, start, step);
      r.Ok? ==> TotalDelay(r.value.lines) == Vn.Steps(|FRangeSeq(start, start + duration, step)|, step) >= duration
  {
    Vn.FramesReach(duration, start, step);
    FrameLinesTotal(f, annotate, open, closed, FRangeSeq(start, start + duration, step), step);
  }

  /** What the loop of `alternate_frames_for_duration` has done after `i` turns. */
  predicate FramesSoFar(f: Formats, annotate: Annotator, open: string, closed: string, times: seq<real>, step: real,
                        i: nat, lines: seq<string>, openNext: bool, img: Option<string>) {
    && i <= |times|
    && lines == Interleave(open, closed, DelayLines(f, annotate, step, times)[..i])
    && openNext == (i % 2 == 0)
    && img == if i == 0 then None else Some(CycleImage(open, closed, i - 1))
  }

  /** One turn of the loop: `next(images)`, then the image line and the delay line. */
  method FrameTurn(f: Formats, annotate: Annotator, open: string, closed: string, times: seq<real>, step: real,
                   i: nat, lines: seq<string>, openNext: bool, img: Option<string>)
    returns (nextLines: seq<string>, nextOpen: bool, nextImg: Option<string>)
    requires FramesSoFar(f, annotate, open, closed, times, step, i, lines, openNext, img) && i < |times|
    ensures FramesSoFar(f, annotate, open, closed, times, step, i + 1, nextLines, nextOpen, nextImg)
  {
    var image := if openNext then open else closed;
    assert image == CycleImage(open, closed, i);
    assert (i + 1) % 2 == 1 - i % 2;
    InterleaveExtend(open, closed, DelayLines(f, annotate, step, times), i);
    nextLines := lines + [Vn.ImageLine(image), DelayLine(f, annotate, step, times[i])];
    nextOpen, nextImg := !openNext, Some(image);
  }

  /**
   * The loop of `alternate_frames_for_duration` over the given times, with its own fresh cycle:
   * each turn takes the cycle's next image and writes the image and the delay line.
   */
  method FramesAt(f: Formats, annotate: Annotator, open: string, closed: string, times: seq<real>, step: real)
    returns (r: Result<Frames>)
    ensures r == FramesOf(f, annotate, open, closed, times, step)
  {
    var openNext := true;
    var lines: seq<string> := [];
    var img: Option<string> := None;
    assert DelayLines(f, annotate, step, times)[..0] == [];
    for i := 0 to |times|
      invariant FramesSoFar(f, annotate, open, closed, times, step, i, lines, openNext, img)
    {
      lines, openNext, img := FrameTurn(f, annotate, open, closed, times, step, i, lines, openNext, img);
    }
    assert DelayLines(f, annotate, step, times)[..|times|] == DelayLines(f, annotate, step, times);
    if img.None? {
      r := Err(UnboundLocalError);
    } else {
      r := Ok(Frames(lines, img.value));
    }
  }

  /** The frames over `frange(start, start + duration, step)` with the given annotations. */
  method FramesForDuration(f: Formats, annotate: Annotator, duration: real, start: real, open: string, closed: string,
                           step: real) returns (r: Result<Frames>)
    requires step != 0.0
    ensures r == FramesFor(f, annotate, open, closed, duration, start, step)
  {
    var times := FRange(start, start + duration, step);
    assert FramesOf(f, annotate, open, closed, times, step) == FramesFor(f, annotate, open, closed, duration, start, step);
    r := FramesAt(f, annotate, open, closed, times, step);
  }

  /** `alternate_frames_for_duration(duration, start_time, transcription, open_image, closed_image, time_step, verbose)`. */
  method AlternateFramesForDuration(f: Formats, ts: seq<WordTiming>, duration: real, start: real, open: string,
                                    closed: string, step: real, verbose: bool) returns (r: Result<Frames>)
    requires step != 0.0
    ensures r == FramesFor(f, Annotate(f, ts, verbose), open, closed, duration, start, step)
  {
    r := FramesForDuration(f, Annotate(f, ts, verbose), duration, start, open, closed, step);
  }

  // ---------------------------------------------------------------------------------------------
  // alternate_frames

  /** The closed image, appended when the last frame was not the closed mouth. */
  function Closing(last: string, closed: string): seq<string> {
    if last != closed then [Vn.ImageLine(closed)] else []
  }

  /** The three header lines of `alternate_frames`: two comments, then the image statement. */
  function Header(f: Formats, t: Transcription, confident: bool, atlName: string, duration: real): seq<string> {
    ["# " + (if confident then "" else " ∗") + " Transcription: " + Str(t),
     "# length: " + f.fixed(duration, 2) + " s",
     "image " + atlName + ":"]
  }

  /**
   * The lines `alternate_frames` joins: the header, then frames from 0 over the whole transcript,
   * then the closed image if the last frame was not it. Reading the duration of an empty
   * transcript raises IndexError; a transcript that ends at 0 or before gives no frames.
   */
  function AlternateFramesLines(f: Formats, t: Transcription, confident: bool, atlName: string, open: string,
                                closed: string, step: real, verbose: bool): (r: Result<seq<string>>)
    requires step != 0.0
  {
    if t.timings == [] then Err(IndexError)
    else
      var duration := Transcribe.Duration(t).value;
      Framed(Header(f, t, confident, atlName, duration), FramesFor(f, Annotate(f, t.timings, verbose), open, closed, duration, 0.0, step),
             closed)
  }

  /** The header, a run of frames and the closing image, or the error of the run. */
  function Framed(header: seq<string>, run: Result<Frames>, closed: string): (r: Result<seq<string>>) {
    match run
    case Err(e) => Err(e)
    case Ok(frames) => Ok(header + frames.lines + Closing(frames.last, closed))
  }

  /** The lines joined by "\n", or the error. */
  function Joined(r: Result<seq<string>>): Result<string> {
    match r
    case Err(e) => Err(e)
    case Ok(lines) => Ok(Join(lines, "\n"))
  }

  /** `alternate_frames(transcription, atl_name, open_image, closed_image, time_step, verbose)`. */
  method AlternateFrames(f: Formats, t: Transcription, confident: bool, atlName: string, open: string, closed: string,
                         step: real, verbose: bool) returns (r: Result<string>)
    requires step != 0.0
    ensures r == Joined(AlternateFramesLines(f, t, confident, atlName, open, closed, step, verbose))
  {
    var duration := Transcribe.Duration(t);
    if duration.Err? {
      return Err(duration.error);
    }
    var header := Header(f, t, confident, atlName, duration.value);
    var added := AlternateFramesForDuration(f, t.timings, duration.value, 0.0, open, closed, step, verbose);
    AlternateFramesLinesAre(f, t, confident, atlName, open, closed, step, verbose, added);
    if added.Err? {
      return Err(added.error);
    }
    var lines := header + added.value.lines + Closing(added.value.last, closed);
    r := Ok(Join(lines, "\n"));
  }

  /** `AlternateFramesLines` in terms of the outcome of the frame loop. */
  lemma AlternateFramesLinesAre(f: Formats, t: Transcription, confident: bool, atlName: string, open: string,
                                closed: string, step: real, verbose: bool, added: Result<Frames>)
    requires step != 0.0 && t.timings != []
    requires added == FramesFor(f, Annotate(f, t.timings, verbose), open, closed, Transcribe.Duration(t).value, 0.0, step)
    ensures AlternateFramesLines(f, t, confident, atlName, open, closed, step, verbose)
         == if added.Err? then Err(added.error)
            else Ok(Header(f, t, confident, atlName, Transcribe.Duration(t).value) + added.value.lines + Closing(added.value.last, closed))
  {
  }

  /**
   * `alternate_frames` fails exactly on an empty transcript (IndexError) or an empty range of
   * frames (UnboundLocalError); for a positive step the latter means the transcript ends at 0
   * or before.
   */
  lemma AlternateFramesOutcome(f: Formats, t: Transcription, confident: bool, atlName: string, open: string,
                               closed: string, step: real, verbose: bool)
    requires step != 0.0
    ensures var r := AlternateFramesLines(f, t, confident, atlName, open, closed, step, verbose);
      && (t.timings == [] ==> r == Err(IndexError))
      && (t.timings != [] ==> (r.Err? <==> FRangeSeq(0.0, Transcribe.Duration(t).value, step) == []))
      && (t.timings != [] && r.Err? ==> r.error == UnboundLocalError)
      && (t.timings != [] && step > 0.0 ==> (r.Err? <==> Transcribe.Duration(t).value <= 0.0))
  {
    if t.timings != [] {
      var duration := Transcribe.Duration(t).value;
      assert 0.0 + duration == duration;
      FramesForImages(f, Annotate(f, t.timings, verbose), open, closed, duration, 0.0, step);
    }
  }

  /** The frames `alternate_frames` writes, when it succeeds. */
  function RunOf(f: Formats, t: Transcription, open: string, closed: string, step: real, verbose: bool): Result<Frames>
    requires step != 0.0 && t.timings != []
  {
    FramesFor(f, Annotate(f, t.timings, verbose), open, closed, Transcribe.Duration(t).value, 0.0, step)
  }

  /** The text starts with the three header lines, then the first frame, which shows the open mouth. */
  lemma AlternateFramesStart(f: Formats, t: Transcription, confident: bool, atlName: string, open: string,
                             closed: string, step: real, verbose: bool)
    requires step != 0.0
    requires AlternateFramesLines(f, t, confident, atlName, open, closed, step, verbose).Ok?
    ensures var lines := AlternateFramesLines(f, t, confident, atlName, open, closed, step, verbose).value;
      && |lines| >= 5 && lines[..3] == Header(f, t, confident, atlName, Transcribe.Duration(t).value)
      && lines[3] == Vn.ImageLine(open)
  {
    var duration := Transcribe.Duration(t).value;
    assert 0.0 + duration == duration;
    var added := RunOf(f, t, open, closed, step, verbose);
    AlternateFramesLinesAre(f, t, confident, atlName, open, closed, step, verbose, added);
    FramesForImages(f, Annotate(f, t.timings, verbose), open, closed, duration, 0.0, step);
    ThreeParts(Header(f, t, confident, atlName, duration), added.value.lines, Closing(added.value.last, closed));
  }

  /**
   * The text ends showing the closed mouth: the closed image is appended exactly when the last
   * of the `n` frames was not the closed mouth, which, when the two images differ, is when `n`
   * is odd.
   */
  lemma AlternateFramesEndsClosed(f: Formats, t: Transcription, confident: bool, atlName: string, open: string,
                                  closed: string, step: real, verbose: bool)
    requires step != 0.0
    requires AlternateFramesLines(f, t, confident, atlName, open, closed, step, verbose).Ok?
    ensures var lines, n := AlternateFramesLines(f, t, confident, atlName, open, closed, step, verbose).value,
                            |FRangeSeq(0.0, Transcribe.Duration(t).value, step)|;
      && n >= 1
      && (CycleImage(open, closed, n - 1) == closed ==> |lines| == 3 + 2 * n && lines[3 + 2 * (n - 1)] == Vn.ImageLine(closed))
      && (CycleImage(open, closed, n - 1) != closed ==> |lines| == 3 + 2 * n + 1 && lines[3 + 2 * n] == Vn.ImageLine(closed))
      && (open != closed ==> (|lines| == 3 + 2 * n + 1 <==> n % 2 == 1))
  {
    var duration := Transcribe.Duration(t).value;
    FramedEndsClosed(f, Annotate(f, t.timings, verbose), Header(f, t, confident, atlName, duration), open, closed, duration, step);
  }

  /** `AlternateFramesEndsClosed` for any annotations and any header of three lines. */
  lemma FramedEndsClosed(f: Formats, annotate: Annotator, header: seq<string>, open: string, closed: string,
                         duration: real, step: real)
    requires step != 0.0 && |header| == 3
    requires Framed(header, FramesFor(f, annotate, open, closed, duration, 0.0, step), closed).Ok?
    ensures var lines, n := Framed(header, FramesFor(f, annotate, open, closed, duration, 0.0, step), closed).value,
                            |FRangeSeq(0.0, duration, step)|;
      && n >= 1
      && (CycleImage(open, closed, n - 1) == closed ==> |lines| == 3 + 2 * n && lines[3 + 2 * (n - 1)] == Vn.ImageLine(closed))
      && (CycleImage(open, closed, n - 1) != closed ==> |lines| == 3 + 2 * n + 1 && lines[3 + 2 * n] == Vn.ImageLine(closed))
      && (open != closed ==> (|lines| == 3 + 2 * n + 1 <==> n % 2 == 1))
  {
    assert 0.0 + duration == duration;
    FramesForImages(f, annotate, open, closed, duration, 0.0, step);
    var run := FramesFor(f, annotate, open, closed, duration, 0.0, step).value;
    ClosingAt(header, run.lines, run.last, open, closed, |FRangeSeq(0.0, duration, step)|);
  }

  /** Where the closed image stands in the header, `n` frames and the closing image. */
  lemma ClosingAt(header: seq<string>, frames: seq<string>, last: string, open: string, closed: string, n: nat)
    requires |header| == 3 && n >= 1 && |frames| == 2 * n && last == CycleImage(open, closed, n - 1)
    requires frames[2 * n - 2] == Vn.ImageLine(last)
    ensures var lines := header + frames + Closing(last, closed);
      && (last == closed ==> |lines| == 3 + 2 * n && lines[3 + 2 * (n - 1)] == Vn.ImageLine(closed))
      && (last != closed ==> |lines| == 3 + 2 * n + 1 && lines[3 + 2 * n] == Vn.ImageLine(closed))
      && (open != closed ==> (|lines| == 3 + 2 * n + 1 <==> n % 2 == 1))
  {
    ThreeParts(header, frames, Closing(last, closed));
    if open != closed {
      assert (n - 1) % 2 == 0 <==> n % 2 == 1;
    }
  }

  /** The parts of a sequence made of three. */
  lemma ThreeParts<T>(a: seq<T>, b: seq<T>, c: seq<T>)
    ensures (a + b + c)[..|a|] == a
    ensures forall k :: 0 <= k < |b| ==> (a + b + c)[|a| + k] == b[k]
    ensures forall k :: 0 <= k < |c| ==> (a + b + c)[|a| + |b| + k] == c[k]
  {
    assert (a + b + c)[..|a|] == a;
  }

  /** The header lines of `alternate_frames` carry no delay. */
  lemma HeaderNoDelay(f: Formats, t: Transcription, confident: bool, atlName: string, duration: real)
    ensures TotalDelay(Header(f, t, confident, atlName, duration)) == 0.0
  {
    var h := Header(f, t, confident, atlName, duration);
    assert h[0][0] == '#' && h[1][0] == '#' && h[2][0] == 'i';
    assert h[0][..0] == h[1][..0] == h[2][..0] == "";
    NoDelay(h[0], 0);
    NoDelay(h[1], 0);
    NoDelay(h[2], 0);
    Vn.TotalDelayThree(h[0], h[1], h[2]);
  }

  /**
   * The animation `alternate_frames` writes lasts at least as long as the transcript, for a
   * positive step whose written form reads back exactly.
   */
  lemma AlternateFramesCover(f: Formats, t: Transcription, confident: bool, atlName: string, open: string,
                             closed: string, step: real, verbose: bool)
    requires step > 0.0 && RendersExactly(f.fixed(step, 2), step)
    requires AlternateFramesLines(f, t, confident, atlName, open, closed, step, verbose).Ok?
    ensures var lines := AlternateFramesLines(f, t, confident, atlName, open, closed, step, verbose).value;
      TotalDelay(lines) >= Transcribe.Duration(t).value
  {
    var duration := Transcribe.Duration(t).value;
    assert 0.0 + duration == duration;
    var added := RunOf(f, t, open, closed, step, verbose);
    AlternateFramesLinesAre(f, t, confident, atlName, open, closed, step, verbose, added);
    AnnotateComments(f, t.timings, verbose);
    FramesCover(f, Annotate(f, t.timings, verbose), open, closed, duration, 0.0, step);
    HeaderNoDelay(f, t, confident, atlName, duration);
    FramedTotal(Header(f, t, confident, atlName, duration), added.value.lines, added.value.last, closed, duration);
  }

  /** Lines without delay before a run of frames and the closing image add nothing to its time. */
  lemma FramedTotal(header: seq<string>, frames: seq<string>, last: string, closed: string, x: real)
    requires TotalDelay(header) == 0.0 && TotalDelay(frames) >= x
    ensures TotalDelay(header + frames + Closing(last, closed)) >= x
  {
    TotalDelayConcat(header, frames);
    TotalDelayConcat(header + frames, Closing(last, closed));
    Vn.ImageLineDelay(closed);
    assert TotalDelay([Vn.ImageLine(closed)]) == 0.0;
  }

  /**
   * What `get_animation_duration` reads back from the text `alternate_frames` writes is the time
   * the lines carry, when no line holds a line break; so it too covers the transcript.
   */
  lemma AlternateFramesReadBack(f: Formats, t: Transcription, confident: bool, atlName: string, open: string,
                                closed: string, step: real, verbose: bool)
    requires step > 0.0 && RendersExactly(f.fixed(step, 2), step)
    requires AlternateFramesLines(f, t, confident, atlName, open, closed, step, verbose).Ok?
    ensures var lines := AlternateFramesLines(f, t, confident, atlName, open, closed, step, verbose).value;
      (forall k :: 0 <= k < |lines| ==> NoLineBreak(lines[k])) ==>
        SplitLines(Join(lines, "\n")) == lines && TotalDelay(SplitLines(Join(lines, "\n"))) >= Transcribe.Duration(t).value
  {
    var duration := Transcribe.Duration(t).value;
    assert 0.0 + duration == duration;
    var added := RunOf(f, t, open, closed, step, verbose);
    AlternateFramesLinesAre(f, t, confident, atlName, open, closed, step, verbose, added);
    AlternateFramesCover(f, t, confident, atlName, open, closed, step, verbose);
    var header := Header(f, t, confident, atlName, duration);
    var lines := header + added.value.lines + Closing(added.value.last, closed);
    if forall k :: 0 <= k < |lines| ==> NoLineBreak(lines[k]) {
      HeaderNotEmpty(f, t, confident, atlName, duration);
      FrameLinesNotEmpty(f, Annotate(f, t.timings, verbose), open, closed, FRangeSeq(0.0, duration, step), step);
      FramedNotEmpty(header, added.value.lines, added.value.last, closed);
      SplitLinesJoin(lines);
    }
  }

  /** No header line is empty. */
  lemma HeaderNotEmpty(f: Formats, t: Transcription, confident: bool, atlName: string, duration: real)
    ensures forall k :: 0 <= k < |Header(f, t, confident, atlName, duration)| ==> Header(f, t, confident, atlName, duration)[k] != ""
  {
    HeaderLinesNotEmpty(Str(t), f.fixed(duration, 2), atlName, if confident then "" else " ∗");
  }

  /** The three header lines are non-empty whatever text, length, name and mark they carry. */
  lemma HeaderLinesNotEmpty(text: string, length: string, atlName: string, mark: string)
    ensures var h := ["# " + mark + " Transcription: " + text, "# length: " + length + " s", "image " + atlName + ":"];
      forall k :: 0 <= k < |h| ==> h[k] != ""
  {
  }

  /** Interleaving non-empty delay lines gives only non-empty lines. */
  lemma {:induction false} InterleaveNotEmpty(open: string, closed: string, delays: seq<string>)
    requires forall k :: 0 <= k < |delays| ==> delays[k] != ""
    ensures forall k :: 0 <= k < |Interleave(open, closed, delays)| ==> Interleave(open, closed, delays)[k] != ""
  {
    if delays != [] {
      var n := |delays| - 1;
      InterleaveNotEmpty(open, closed, delays[..n]);
      PairAt(Interleave(open, closed, delays[..n]), Vn.ImageLine(CycleImage(open, closed, n)), delays[n]);
    }
  }

  /** No frame line is empty. */
  lemma FrameLinesNotEmpty(f: Formats, annotate: Annotator, open: string, closed: string,
                           times: seq<real>, step: real)
    ensures forall k :: 0 <= k < |FrameLines(f, annotate, open, closed, times, step)| ==>
      FrameLines(f, annotate, open, closed, times, step)[k] != ""
  {
    var delays := DelayLines(f, annotate, step, times);
    assert forall k :: 0 <= k < |delays| ==> |delays[k]| >= 4;
    InterleaveNotEmpty(open, closed, delays);
  }

  /** Non-empty lines before a run of non-empty frames and the closing image give only non-empty lines. */
  lemma FramedNotEmpty(header: seq<string>, frames: seq<string>, last: string, closed: string)
    requires forall k :: 0 <= k < |header| ==> header[k] != ""
    requires forall k :: 0 <= k < |frames| ==> frames[k] != ""
    ensures forall k :: 0 <= k < |header + frames + Closing(last, closed)| ==> (header + frames + Closing(last, closed))[k] != ""
  {
    ThreeParts(header, frames, Closing(last, closed));
    var lines := header + frames + Closing(last, closed);
    forall k | 0 <= k < |lines|
      ensures lines[k] != ""
    {
      if k < |header| {
        assert lines[k] == lines[..|header|][k];
      } else if k < |header| + |frames| {
        assert lines[k] == frames[k - |header|];
      } else {
        assert lines[k] == Closing(last, closed)[k - |header| - |frames|];
      }
    }
  }

  /** The entries of a sequence extended by two. */
  lemma PairAt<T>(a: seq<T>, x: T, y: T)
    ensures forall k :: 0 <= k < |a| ==> (a + [x, y])[k] == a[k]
    ensures (a + [x, y])[|a|] == x && (a + [x, y])[|a| + 1] == y
  {
  }

  /** The entries of a sequence extended by one. */
  lemma SnocAt<T>(a: seq<T>, x: T)
    ensures forall k :: 0 <= k < |a| ==> (a + [x])[k] == a[k]
    ensures (a + [x])[|a|] == x
  {
  }

  // ---------------------------------------------------------------------------------------------
  // get_animation_duration

  /** `get_animation_duration(atl)`: the sum of the leading decimals of the lines; other lines add 0. */
  method GetAnimationDuration(atl: string) returns (duration: real)
    ensures duration == TotalDelay(SplitLines(atl))
    ensures duration >= 0.0
  {
    var lines := SplitLines(atl);
    duration := 0.0;
    for i := 0 to |lines|
      invariant duration == TotalDelay(lines[..i])
    {
      Vn.RunningTime(lines, i);
      var pause := LeadingFloat(lines[i]);
      if pause.Some? {
        duration := duration + pause.value;
      }
    }
    assert lines[..|lines|] == lines;
    TotalDelayNonNegative(lines);
  }

  // ---------------------------------------------------------------------------------------------
  // update_annotations

  /**
   * A line as `update_annotations` writes it at running time `time`: copied when it has no
   * pause, else its leading whitespace, the pause to two places and the annotation of
   * `[time, time + pause)`; whatever followed the pause is dropped.
   */
  function UpdatedLine(f: Formats, annotate: Annotator, line: string, time: real): string {
    match LeadingFloat(line)
    case None => line
    case Some(pause) => SpacePrefix(line) + f.fixed(pause, 2) + annotate(time, time + pause)
  }

  /** The first `n` lines, each written at the time the pauses of the lines before it add up to. */
  function UpdatedLines(f: Formats, annotate: Annotator, lines: seq<string>, n: nat): (r: seq<string>)
    requires n <= |lines|
    ensures |r| == n
  {
    if n == 0 then []
    else UpdatedLines(f, annotate, lines, n - 1) + [UpdatedLine(f, annotate, lines[n - 1], TotalDelay(lines[..n - 1]))]
  }

  /** Line `k` of the updated lines is line `k` written at the running time before it. */
  lemma {:induction false} UpdatedLinesAt(f: Formats, annotate: Annotator, lines: seq<string>, n: nat, k: nat)
    requires k < n <= |lines|
    ensures UpdatedLines(f, annotate, lines, n)[k] == UpdatedLine(f, annotate, lines[k], TotalDelay(lines[..k]))
  {
    SnocAt(UpdatedLines(f, annotate, lines, n - 1), UpdatedLine(f, annotate, lines[n - 1], TotalDelay(lines[..n - 1])));
    if k < n - 1 {
      UpdatedLinesAt(f, annotate, lines, n - 1, k);
    }
  }

  /** Every pause is written to two places in a form that reads back as itself. */
  predicate PausesRenderExactly(f: Formats, lines: seq<string>) {
    forall k :: 0 <= k < |lines| ==>
      LeadingFloat(lines[k]).Some? ==> RendersExactly(f.fixed(Delay(lines[k]), 2), Delay(lines[k]))
  }

  /** A line written as whitespace, a number and a comment carries the number's value and keeps the whitespace. */
  lemma RewrittenLine(prefix: string, number: string, comment: string, x: real)
    requires AllSpace(prefix) && RendersExactly(number, x) && Vn.IsComment(comment)
    ensures Delay(prefix + number + comment) == x && SpacePrefix(prefix + number + comment) == prefix
  {
    assert comment == [] || comment[0] == comment[..3][0] == ' ';
    MatchDelayOf(prefix, number, comment);
  }

  /**
   * A line without a pause is copied; a line with one keeps its leading whitespace and, when
   * the pause reads back exactly, its pause.
   */
  lemma UpdatedLineKeeps(f: Formats, annotate: Annotator, line: string, time: real)
    requires Comments(annotate)
    ensures LeadingFloat(line).None? ==> UpdatedLine(f, annotate, line, time) == line
    ensures LeadingFloat(line).Some? && RendersExactly(f.fixed(Delay(line), 2), Delay(line)) ==>
      Delay(UpdatedLine(f, annotate, line, time)) == Delay(line)
      && SpacePrefix(UpdatedLine(f, annotate, line, time)) == SpacePrefix(line)
  {
    if LeadingFloat(line).Some? && RendersExactly(f.fixed(Delay(line), 2), Delay(line)) {
      var pause, prefix := LeadingFloat(line).value, SpacePrefix(line);
      var comment := annotate(time, time + pause);
      assert UpdatedLine(f, annotate, line, time) == prefix + f.fixed(pause, 2) + comment;
      RewrittenLine(prefix, f.fixed(pause, 2), comment, pause);
    }
  }

  /** The updated lines keep the running time of the lines they were written from. */
  lemma {:induction false} UpdatedLinesTotal(f: Formats, annotate: Annotator, lines: seq<string>, n: nat)
    requires Comments(annotate) && n <= |lines| && PausesRenderExactly(f, lines)
    ensures TotalDelay(UpdatedLines(f, annotate, lines, n)) == TotalDelay(lines[..n])
  {
    if n > 0 {
      var line, time := lines[n - 1], TotalDelay(lines[..n - 1]);
      UpdatedLinesTotal(f, annotate, lines, n - 1);
      UpdatedLineKeeps(f, annotate, line, time);
      assert Delay(UpdatedLine(f, annotate, line, time)) == Delay(line);
      Vn.RunningTime(lines, n - 1);
      TotalDelayAppend(UpdatedLines(f, annotate, lines, n - 1), UpdatedLine(f, annotate, line, time));
    }
  }

  /** One turn of the loop of `update_annotations`: the line it writes, the time after it, and whether it breaks there. */
  method UpdateStep(f: Formats, annotate: Annotator, lines: seq<string>, i: nat, time: real, duration: real)
    returns (line: string, after: real, broke: bool)
    requires i < |lines| && time == TotalDelay(lines[..i])
    ensures line == UpdatedLine(f, annotate, lines[i], time)
    ensures after == TotalDelay(lines[..i + 1])
    ensures broke == Vn.Reaches(lines, i, duration)
  {
    Vn.ReachesStep(lines, i, time, duration);
    Vn.RunningTime(lines, i);
    var pause := LeadingFloat(lines[i]);
    after, broke := time, false;
    if pause.None? {
      line := lines[i];
    } else {
      line := SpacePrefix(lines[i]) + f.fixed(pause.value, 2) + annotate(time, time + pause.value);
      after := time + pause.value;
      broke := after >= duration;
    }
  }

  /** What the loop of `update_annotations` has done after reading `i` lines. */
  predicate UpdateState(f: Formats, annotate: Annotator, lines: seq<string>, duration: real, i: nat,
                        written: seq<string>, time: real, broke: bool) {
    var flags := Vn.ReachFlags(lines, duration);
    && i <= |lines|
    && written == UpdatedLines(f, annotate, lines, i)
    && time == TotalDelay(lines[..i])
    && (!broke ==> Vn.StopAfterFirst(flags, i) == Vn.ReadCount(lines, duration))
    && (!broke && 1 <= i ==> !flags[i - 1])
    && (broke ==> 1 <= i == Vn.ReadCount(lines, duration) && flags[i - 1])
  }

  lemma UpdateStart(f: Formats, annotate: Annotator, lines: seq<string>, duration: real)
    ensures UpdateState(f, annotate, lines, duration, 0, [], 0.0, false)
  {
    assert lines[..0] == [];
  }

  lemma UpdateAdvance(f: Formats, annotate: Annotator, lines: seq<string>, duration: real, i: nat,
                      written: seq<string>, time: real, line: string, after: real, broke: bool)
    requires UpdateState(f, annotate, lines, duration, i, written, time, false) && i < |lines|
    requires line == UpdatedLine(f, annotate, lines[i], time)
    requires after == TotalDelay(lines[..i + 1]) && broke == Vn.Reaches(lines, i, duration)
    ensures UpdateState(f, annotate, lines, duration, i + 1, written + [line], after, broke)
  {
    var flags := Vn.ReachFlags(lines, duration);
    assert flags[i] == broke;
    assert Vn.StopAfterFirst(flags, i) == if broke then i + 1 else Vn.StopAfterFirst(flags, i + 1);
  }

  lemma UpdateDone(f: Formats, annotate: Annotator, lines: seq<string>, duration: real, i: nat,
                   written: seq<string>, time: real, broke: bool)
    requires UpdateState(f, annotate, lines, duration, i, written, time, broke) && (i == |lines| || broke)
    ensures written == UpdatedLines(f, annotate, lines, Vn.ReadCount(lines, duration))
    ensures time == TotalDelay(lines[..|written|])
    ensures broke == Vn.Breaks(lines, duration)
  {
    Vn.StopDone(Vn.ReachFlags(lines, duration), i, broke);
  }

  /**
   * The loop of `update_annotations`: it writes the lines it reads as `UpdatedLine` says,
   * reaches the sum of their pauses, and breaks right after the first line with a pause that
   * brings that sum to `duration`.
   */
  method UpdatePass(f: Formats, annotate: Annotator, lines: seq<string>, duration: real)
    returns (written: seq<string>, time: real, broke: bool)
    ensures written == UpdatedLines(f, annotate, lines, Vn.ReadCount(lines, duration))
    ensures time == TotalDelay(lines[..|written|])
    ensures broke == Vn.Breaks(lines, duration)
  {
    written, time, broke := [], 0.0, false;
    UpdateStart(f, annotate, lines, duration);
    var i := 0;
    while i < |lines| && !broke
      invariant UpdateState(f, annotate, lines, duration, i, written, time, broke)
      decreases |lines| - i
    {
      var line, after, reached := UpdateStep(f, annotate, lines, i, time, duration);
      UpdateAdvance(f, annotate, lines, duration, i, written, time, line, after, reached);
      written, time, broke := written + [line], after, reached;
      i := i + 1;
    }
    UpdateDone(f, annotate, lines, duration, i, written, time, broke);
  }

  /**
   * The `else` branch of the loop: when it did not break and time remains, verbose frames for
   * the rest of the transcript from `time` on, then the closed image if they did not end on it.
   */
  function Padding(f: Formats, annotate: Annotator, open: string, closed: string, duration: real, time: real,
                   broke: bool, step: real): (r: Result<seq<string>>)
    requires step != 0.0
  {
    if broke || time >= duration then Ok([])
    else
      match FramesFor(f, annotate, open, closed, duration - time, time, step)
      case Err(e) => Err(e)
      case Ok(run) => Ok(run.lines + Closing(run.last, closed))
  }

  /**
   * The lines `update_annotations` joins: the lines read by the loop as it writes them, then
   * the padding. Reading the duration of an empty transcript raises IndexError.
   */
  function UpdatedAtlLines(f: Formats, t: Transcription, atl: string, open: string, closed: string, step: real,
                           verbose: bool): (r: Result<seq<string>>)
    requires step != 0.0
  {
    if t.timings == [] then Err(IndexError)
    else
      var duration, lines := Transcribe.Duration(t).value, SplitLines(atl);
      var n := Vn.ReadCount(lines, duration);
      match Padding(f, Annotate(f, t.timings, true), open, closed, duration, TotalDelay(lines[..n]), Vn.Breaks(lines, duration), step)
      case Err(e) => Err(e)
      case Ok(tail) => Ok(UpdatedLines(f, Annotate(f, t.timings, verbose), lines, n) + tail)
  }

  /** The padding, computed as the `else` branch of the loop computes it. */
  method PadLines(f: Formats, ts: seq<WordTiming>, open: string, closed: string, duration: real, time: real,
                  broke: bool, step: real) returns (r: Result<seq<string>>)
    requires step != 0.0
    ensures r == Padding(f, Annotate(f, ts, true), open, closed, duration, time, broke, step)
  {
    if broke || time >= duration {
      return Ok([]);
    }
    var added := AlternateFramesForDuration(f, ts, duration - time, time, open, closed, step, true);
    if added.Err? {
      return Err(added.error);
    }
    r := Ok(added.value.lines + Closing(added.value.last, closed));
  }

  /** The lines of `update_annotations` from what its loop wrote, the time it reached and whether it broke. */
  lemma UpdatedAtlLinesAre(f: Formats, t: Transcription, atl: string, open: string, closed: string, step: real,
                           verbose: bool, written: seq<string>, time: real, broke: bool)
    requires step != 0.0 && t.timings != []
    requires var duration, lines := Transcribe.Duration(t).value, SplitLines(atl);
      && written == UpdatedLines(f, Annotate(f, t.timings, verbose), lines, Vn.ReadCount(lines, duration))
      && time == TotalDelay(lines[..|written|]) && broke == Vn.Breaks(lines, duration)
    ensures UpdatedAtlLines(f, t, atl, open, closed, step, verbose)
      == match Padding(f, Annotate(f, t.timings, true), open, closed, Transcribe.Duration(t).value, time, broke, step)
         case Err(e) => Err(e)
         case Ok(tail) => Ok(written + tail)
  {
  }

  /** `update_annotations(transcription, atl, open_image, closed_image, time_step, verbose)`. */
  method UpdateAnnotations(f: Formats, t: Transcription, atl: string, open: string, closed: string, step: real,
                           verbose: bool) returns (r: Result<string>)
    requires step != 0.0
    ensures r == Joined(UpdatedAtlLines(f, t, atl, open, closed, step, verbose))
  {
    var duration := Transcribe.Duration(t);
    if duration.Err? {
      return Err(IndexError);
    }
    var lines := SplitLines(atl);
    var written, time, broke := UpdatePass(f, Annotate(f, t.timings, verbose), lines, duration.value);
    UpdatedAtlLinesAre(f, t, atl, open, closed, step, verbose, written, time, broke);
    var tail := PadLines(f, t.timings, open, closed, duration.value, time, broke, step);
    if tail.Err? {
      return Err(tail.error);
    }
    r := Ok(Join(written + tail.value, "\n"));
  }

  /** A run of frames followed by the closing image ends showing the closed mouth, on its last or next-to-last line. */
  lemma ClosingTail(frames: seq<string>, last: string, closed: string, n: nat)
    requires n >= 1 && |frames| == 2 * n && frames[2 * n - 2] == Vn.ImageLine(last)
    ensures ClosesOn(frames + Closing(last, closed), closed)
  {
    var lines := frames + Closing(last, closed);
    if last == closed {
      assert lines[|lines| - 2] == frames[2 * n - 2];
    }
  }

  /**
   * For a positive step and a positive duration, a run of frames never fails and, followed by
   * the closing image, ends showing the closed mouth.
   */
  lemma RunEndsClosed(f: Formats, annotate: Annotator, open: string, closed: string, duration: real, start: real,
                      step: real)
    requires step > 0.0 && duration > 0.0
    ensures var run := FramesFor(f, annotate, open, closed, duration, start, step);
      run.Ok? && ClosesOn(run.value.lines + Closing(run.value.last, closed), closed)
  {
    FramesForImages(f, annotate, open, closed, duration, start, step);
    var run := FramesFor(f, annotate, open, closed, duration, start, step).value;
    var n := |FRangeSeq(start, start + duration, step)|;
    ClosingTail(run.lines, run.last, closed, n);
  }

  /** The closed image is on the last or the next-to-last line. */
  predicate ClosesOn(lines: seq<string>, closed: string) {
    |lines| >= 2 && (lines[|lines| - 1] == Vn.ImageLine(closed) || lines[|lines| - 2] == Vn.ImageLine(closed))
  }

  /**
   * Padding is added only when the pass read every line without reaching the duration; for a
   * positive step it then never fails, and it is verbose frames from `time` that end showing
   * the closed mouth.
   */
  lemma PaddingShape(f: Formats, annotate: Annotator, open: string, closed: string, duration: real, time: real,
                     broke: bool, step: real)
    requires step != 0.0
    ensures broke || time >= duration ==> Padding(f, annotate, open, closed, duration, time, broke, step) == Ok([])
    ensures !broke && time < duration && step > 0.0 ==>
      var r, run := Padding(f, annotate, open, closed, duration, time, broke, step), FramesFor(f, annotate, open, closed, duration - time, time, step);
      run.Ok? && r == Ok(run.value.lines + Closing(run.value.last, closed)) && ClosesOn(r.value, closed)
  {
    if !broke && time < duration && step > 0.0 {
      RunEndsClosed(f, annotate, open, closed, duration - time, time, step);
    }
  }

  /**
   * `update_annotations` fails only on an empty transcript, with IndexError, when the step is
   * positive. When the pass breaks, the lines after the breaking one are dropped and nothing
   * is appended.
   */
  lemma UpdateAnnotationsOutcome(f: Formats, t: Transcription, atl: string, open: string, closed: string, step: real,
                                 verbose: bool)
    requires step > 0.0
    ensures var r := UpdatedAtlLines(f, t, atl, open, closed, step, verbose);
      (r.Err? <==> t.timings == []) && (r.Err? ==> r.error == IndexError)
    ensures var r, lines := UpdatedAtlLines(f, t, atl, open, closed, step, verbose), SplitLines(atl);
      t.timings != [] && Vn.Breaks(lines, Transcribe.Duration(t).value) ==>
        r == Ok(UpdatedLines(f, Annotate(f, t.timings, verbose), lines, Vn.ReadCount(lines, Transcribe.Duration(t).value)))
  {
    if t.timings != [] {
      var duration, lines := Transcribe.Duration(t).value, SplitLines(atl);
      var n := Vn.ReadCount(lines, duration);
      var written, time, broke := UpdatedLines(f, Annotate(f, t.timings, verbose), lines, n), TotalDelay(lines[..n]), Vn.Breaks(lines, duration);
      UpdatedAtlLinesAre(f, t, atl, open, closed, step, verbose, written, time, broke);
      PaddingShape(f, Annotate(f, t.timings, true), open, closed, duration, time, broke, step);
      assert written + [] == written;
    }
  }

  /** For a positive step, the padding lasts at least the time that remains. */
  lemma PaddingCover(f: Formats, annotate: Annotator, open: string, closed: string, duration: real, time: real,
                     broke: bool, step: real)
    requires Comments(annotate) && step > 0.0 && RendersExactly(f.fixed(step, 2), step)
    ensures var r := Padding(f, annotate, open, closed, duration, time, broke, step);
      r.Ok? && TotalDelay(r.value) >= 0.0 && (!broke ==> time + TotalDelay(r.value) >= duration)
  {
    PaddingShape(f, annotate, open, closed, duration, time, broke, step);
    if !broke && time < duration {
      var run := FramesFor(f, annotate, open, closed, duration - time, time, step).value;
      FramesCover(f, annotate, open, closed, duration - time, time, step);
      ClosedRunTotal(run.lines, run.last, closed, duration - time);
    } else {
      assert TotalDelay([]) == 0.0;
    }
  }

  /** The closing image adds nothing to the time of a run of frames. */
  lemma ClosedRunTotal(frames: seq<string>, last: string, closed: string, x: real)
    requires TotalDelay(frames) >= x
    ensures TotalDelay(frames + Closing(last, closed)) >= x && TotalDelay(frames + Closing(last, closed)) >= 0.0
  {
    TotalDelayConcat(frames, Closing(last, closed));
    Vn.ImageLineDelay(closed);
    assert TotalDelay([Vn.ImageLine(closed)]) == 0.0;
    TotalDelayNonNegative(frames);
  }

  /**
   * The updated animation lasts at least as long as the transcript, for a positive step and a
   * text whose pauses all read back exactly: either its pauses already reach the duration, or
   * the padding covers the rest.
   */
  lemma UpdateAnnotationsCover(f: Formats, t: Transcription, atl: string, open: string, closed: string, step: real,
                               verbose: bool)
    requires step > 0.0 && RendersExactly(f.fixed(step, 2), step)
    requires PausesRenderExactly(f, SplitLines(atl))
    requires t.timings != []
    ensures var r := UpdatedAtlLines(f, t, atl, open, closed, step, verbose);
      r.Ok? && TotalDelay(r.value) >= Transcribe.Duration(t).value
  {
    var duration, lines := Transcribe.Duration(t).value, SplitLines(atl);
    var n := Vn.ReadCount(lines, duration);
    var written, time, broke := UpdatedLines(f, Annotate(f, t.timings, verbose), lines, n), TotalDelay(lines[..n]), Vn.Breaks(lines, duration);
    UpdatedAtlLinesAre(f, t, atl, open, closed, step, verbose, written, time, broke);
    AnnotateComments(f, t.timings, true);
    PaddingCover(f, Annotate(f, t.timings, true), open, closed, duration, time, broke, step);
    var tail := Padding(f, Annotate(f, t.timings, true), open, closed, duration, time, broke, step).value;
    AnnotateComments(f, t.timings, verbose);
    UpdatedLinesTotal(f, Annotate(f, t.timings, verbose), lines, n);
    TotalDelayConcat(written, tail);
    Vn.ReadCountIs(lines, duration);
  }
}
