/**
 * stlr/vn.py: Ren'Py output. `wait_tag` and `renpyify` write a say statement with wait tags;
 * `ATLImageGenerator` writes ATL image code that alternates an open-mouth and a closed-mouth
 * image, annotating each delay with the word boundaries that fall in it. The generator keeps
 * one image cycle for its whole life, so every call continues where the previous one stopped.
 */
module Vn {
  import opened Wrappers
  import opened Text
  import opened Format
  import opened Utils
  import opened Transcribe
  import opened Boundaries

  // ---------------------------------------------------------------------------------------------
  // wait_tag and renpyify

  /** `wait_tag(seconds)`: nothing for a pause that rounds to 0, else `{w=<rounded>}`. */
  function WaitTag(f: Formats, seconds: real): (r: string)
    ensures r == "" <==> f.roundTo(seconds, 2) == 0.0
    ensures r != "" ==> r == "{w=" + f.show(f.roundTo(seconds, 2)) + "}"
  {
    var rounded := f.roundTo(seconds, 2);
    if rounded == 0.0 then "" else "{w=" + f.show(rounded) + "}"
  }

  /** The pieces `renpyify` joins: each word followed by the tag of its pause, over `zip(words, waits)`. */
  function SayPieces(f: Formats, ts: seq<WordTiming>): (r: seq<string>)
    ensures |r| == |WaitsOf(ts)|
    ensures |ts| >= 2 ==> |r| == |ts|
    ensures forall k :: 0 <= k < |r| ==> r[k] == ts[k].word + WaitTag(f, WaitsOf(ts)[k])
  {
    var waits := WaitsOf(ts);
    seq(|waits|, k requires 0 <= k < |waits| => ts[k].word + WaitTag(f, waits[k]))
  }

  /**
   * `renpyify(transcription)`. `waits` is empty for a transcript of fewer than two words, so
   * such a transcript renders as nothing at all.
   */
  function Renpyify(f: Formats, t: Transcription): (r: string)
    ensures |t.timings| < 2 ==> r == ""
  {
    Join(SayPieces(f, t.timings), " ")
  }

  /** Every pause but the last is written as a tag; the last word is followed by no tag at all. */
  lemma RenpyifyLastWord(f: Formats, t: Transcription)
    requires |t.timings| >= 2 && f.roundTo(0.0, 2) == 0.0
    ensures SayPieces(f, t.timings)[|t.timings| - 1] == t.timings[|t.timings| - 1].word
  {
  }

  // ---------------------------------------------------------------------------------------------
  // annotation entries

  /** `[(t.word, t.end, "end") for t in transcription if start <= t.end <= end]`. */
  function EndEvents(ts: seq<WordTiming>, start: real, end: real): (r: seq<Boundary>)
    ensures |r| <= |ts|
  {
    if ts == [] then []
    else (if start <= ts[0].end <= end then [Boundary(ts[0].word, ts[0].end, End)] else []) + EndEvents(ts[1..], start, end)
  }

  /**
   * The end entries are exactly the words that end in the closed window: each entry is an end
   * in the window, there are none exactly when no word ends there, and every word that ends
   * there has its entry.
   */
  lemma {:induction false} EndEventsAre(ts: seq<WordTiming>, start: real, end: real)
    ensures var r := EndEvents(ts, start, end);
      && AllOfKind(r, End)
      && (forall k :: 0 <= k < |r| ==> start <= r[k].time <= end)
      && (forall b :: b in r ==> exists j :: 0 <= j < |ts| && start <= ts[j].end <= end
                                            && b == Boundary(ts[j].word, ts[j].end, End))
  {
    if ts != [] {
      EndEventsAre(ts[1..], start, end);
      var head := if start <= ts[0].end <= end then [Boundary(ts[0].word, ts[0].end, End)] else [];
      assert EndEvents(ts, start, end) == head + EndEvents(ts[1..], start, end);
      forall b | b in EndEvents(ts[1..], start, end)
        ensures exists j :: 0 <= j < |ts| && start <= ts[j].end <= end && b == Boundary(ts[j].word, ts[j].end, End)
      {
        var j :| 0 <= j < |ts[1..]| && start <= ts[1..][j].end <= end && b == Boundary(ts[1..][j].word, ts[1..][j].end, End);
        assert ts[j + 1] == ts[1..][j];
      }
    }
  }

  lemma {:induction false} EndEventsComplete(ts: seq<WordTiming>, start: real, end: real)
    ensures var r := EndEvents(ts, start, end);
      && (r == [] <==> forall k :: 0 <= k < |ts| ==> !(start <= ts[k].end <= end))
      && (forall k :: 0 <= k < |ts| && start <= ts[k].end <= end ==> Boundary(ts[k].word, ts[k].end, End) in r)
  {
    if ts != [] {
      EndEventsComplete(ts[1..], start, end);
      assert forall k :: 1 <= k < |ts| ==> ts[k] == ts[1..][k - 1];
    }
  }

  /** `[(t.word, t.start, "start") for t in transcription if start <= t.start <= end]`. */
  function StartEvents(ts: seq<WordTiming>, start: real, end: real): (r: seq<Boundary>)
    ensures |r| <= |ts|
  {
    if ts == [] then []
    else (if start <= ts[0].start <= end then [Boundary(ts[0].word, ts[0].start, Start)] else []) + StartEvents(ts[1..], start, end)
  }

  /**
   * The start entries are exactly the words that start in the closed window: each entry is the
   * start of a word that starts there, recorded at that start.
   */
  lemma {:induction false} StartEventsAre(ts: seq<WordTiming>, start: real, end: real)
    ensures var r := StartEvents(ts, start, end);
      && AllOfKind(r, Start)
      && (forall k :: 0 <= k < |r| ==> start <= r[k].time <= end)
      && (forall b :: b in r ==> exists j :: 0 <= j < |ts| && start <= ts[j].start <= end
                                            && b == Boundary(ts[j].word, ts[j].start, Start))
  {
    if ts != [] {
      StartEventsAre(ts[1..], start, end);
      var head := if start <= ts[0].start <= end then [Boundary(ts[0].word, ts[0].start, Start)] else [];
      assert StartEvents(ts, start, end) == head + StartEvents(ts[1..], start, end);
      forall b | b in StartEvents(ts[1..], start, end)
        ensures exists j :: 0 <= j < |ts| && start <= ts[j].start <= end && b == Boundary(ts[j].word, ts[j].start, Start)
      {
        var j :| 0 <= j < |ts[1..]| && start <= ts[1..][j].start <= end && b == Boundary(ts[1..][j].word, ts[1..][j].start, Start);
        assert ts[j + 1] == ts[1..][j];
      }
    }
  }

  lemma {:induction false} StartEventsComplete(ts: seq<WordTiming>, start: real, end: real)
    ensures var r := StartEvents(ts, start, end);
      && (r == [] <==> forall k :: 0 <= k < |ts| ==> !(start <= ts[k].start <= end))
      && (forall k :: 0 <= k < |ts| && start <= ts[k].start <= end ==> Boundary(ts[k].word, ts[k].start, Start) in r)
  {
    if ts != [] {
      StartEventsComplete(ts[1..], start, end);
      assert forall k :: 1 <= k < |ts| ==> ts[k] == ts[1..][k - 1];
    }
  }


  function BoundaryWords(bs: seq<Boundary>): (r: seq<string>)
    ensures |r| == |bs| && forall k :: 0 <= k < |bs| ==> r[k] == bs[k].word
  {
    seq(|bs|, k requires 0 <= k < |bs| => bs[k].word)
  }

  /** The text of one verbose entry: `| {word!r} [{bound} @ {time:.2f}]`. */
  function EntryText(f: Formats, b: Boundary): string {
    "| " + f.quote(b.word) + " [" + (if b.kind == End then "end" else "start") + " @ " + f.fixed(b.time, 2) + "]"
  }

  function EntryTexts(f: Formats, bs: seq<Boundary>): (r: seq<string>)
    ensures |r| == |bs| && forall k :: 0 <= k < |bs| ==> r[k] == EntryText(f, bs[k])
  {
    seq(|bs|, k requires 0 <= k < |bs| => EntryText(f, bs[k]))
  }

  /** An image line of the ATL block: the path, quoted and indented. */
  function ImageLine(image: string): string {
    "    \"" + image + "\""
  }

  /** An image line never carries a delay. */
  lemma ImageLineDelay(image: string)
    ensures Delay(ImageLine(image)) == 0.0
  {
    var line := ImageLine(image);
    assert line[..4] == "    " && line[4] == '"';
    NoDelay(line, 4);
  }

  /** A comment is empty or starts with "  #", so nothing can be read as part of a delay before it. */
  predicate IsComment(s: string) {
    s == "" || (|s| >= 3 && s[..3] == "  #")
  }

  /** `RStrip` keeps a "  #" it starts with. */
  lemma RStripComment(s: string)
    requires |s| >= 3 && s[..3] == "  #"
    ensures IsComment(RStrip(s)) && RStrip(s) != ""
  {
    var r := RStrip(s);
    assert s[2] == '#' && !IsSpace(s[2]);
    assert |r| >= 3;
    assert r[..3] == s[..|r|][..3];
  }

  /** The delay a delay line written as `prefix + number + comment` carries. */
  lemma DelayBeforeComment(prefix: string, number: string, comment: string, x: real)
    requires AllSpace(prefix) && RendersExactly(number, x) && IsComment(comment)
    ensures Delay(prefix + number + comment) == x
  {
    MatchDelayOfValue(prefix, number, comment, x);
  }

  /** The length of a word; `TranscribedWord.duration` is not part of this model, so it is its end minus its start. */
  function WordDuration(w: WordTiming): real {
    w.end - w.start
  }

  /** The outcome of the smart blocks: the lines or the error, and the cycle's state after them. */
  datatype SmartRun = SmartRun(result: Result<seq<string>>, openNext: bool)

  /** The outcome of the reannotation pass: the lines written, the time reached, whether it stopped early. */
  datatype Pass = Pass(lines: seq<string>, time: real, broke: bool)

  /** A frame run: the lines written, the last image of the loop, the cycle's state after it. */
  datatype FrameRun = FrameRun(lines: seq<string>, last: Option<string>, openNext: bool)

  /** Whether the cycle gives the open mouth next after `k` further images, from state `first`. */
  function After(first: bool, k: nat): bool {
    if k % 2 == 0 then first else !first
  }

  /** The cycle after `k` images, started afresh, continues the cycle that was started from `first`. */
  lemma CycleShift(first: bool, k: nat)
    ensures After(After(first, k), 0) == After(first, k)
    ensures After(After(first, k), 1) == After(first, k + 1)
  {
    AfterStep(first, k);
  }

  lemma AfterStep(first: bool, k: nat)
    ensures After(first, k + 1) == !After(first, k)
  {
    assert (k + 1) % 2 == 1 - k % 2;
  }

  /** `step` added up `n` times. */
  function Steps(n: nat, step: real): real {
    if n == 0 then 0.0 else Steps(n - 1, step) + step
  }

  /** As many steps as `frange` yields values reach the end of the range. */
  lemma FramesReach(duration: real, start: real, step: real)
    requires step > 0.0
    ensures Steps(|FRangeSeq(start, start + duration, step)|, step) >= duration
  {
    var n := |FRangeSeq(start, start + duration, step)|;
    FRangeSeqValues(start, start + duration, step);
    StepsIsProduct(n, step);
    assert start + n as real * step >= start + duration;
  }

  lemma {:induction false} StepsIsProduct(n: nat, step: real)
    ensures Steps(n, step) == n as real * step
  {
    if n > 0 {
      StepsIsProduct(n - 1, step);
      assert n as real * step == (n - 1) as real * step + step;
    }
  }

  // ---------------------------------------------------------------------------------------------
  // the generator

  /** An indented comment line has no delay. */
  lemma CommentNoDelay(line: string)
    requires 5 <= |line| && line[..5] == "    #"
    ensures Delay(line) == 0.0
  {
    assert line[..4] == line[..5][..4] == "    " && line[4] == line[..5][4] == '#';
    NoDelay(line, 4);
  }

  lemma TotalDelayThree(a: string, b: string, c: string)
    ensures TotalDelay([a, b, c]) == Delay(a) + Delay(b) + Delay(c)
  {
    assert [a, b, c][1..] == [b, c] && [b, c][1..] == [c] && [c][1..] == [];
    assert TotalDelay([c]) == Delay(c);
    assert TotalDelay([b, c]) == Delay(b) + Delay(c);
  }

  /** The three header lines of the generated text: an image statement and two comments. */
  lemma HeaderNoDelay(name: string, caution: string, text: string, length: string)
    ensures TotalDelay(["image " + name + ":", "    # " + caution + " Transcription: " + text,
                        "    # length: " + length + " seconds"]) == 0.0
  {
    var a := "image " + name + ":";
    assert a[0] == 'i' && a[..0] == "";
    NoDelay(a, 0);
    var b := "    # " + caution + " Transcription: " + text;
    assert b[..5] == "    #";
    CommentNoDelay(b);
    var c := "    # length: " + length + " seconds";
    assert c[..5] == "    #";
    CommentNoDelay(c);
    TotalDelayThree(a, b, c);
  }

  /** A result that extends `a + b + c` extends `a`. */
  lemma ExtendedPrefix<T>(a: seq<T>, b: seq<T>, c: seq<T>, r: Result<seq<T>>)
    requires r.Ok? ==> |a + b + c| <= |r.value| && r.value[..|a + b + c|] == a + b + c
    ensures r.Ok? ==> |a| <= |r.value| && r.value[..|a|] == a
  {
    if r.Ok? {
      assert r.value[..|a|] == (a + b + c)[..|a|];
    }
  }

  /** Where a scan that stops right after the first set flag, from index `k` on, ends. */
  function StopAfterFirst(flags: seq<bool>, k: nat): (n: nat)
    requires k <= |flags|
    ensures k <= n <= |flags|
    decreases |flags| - k
  {
    if k == |flags| then |flags| else if flags[k] then k + 1 else StopAfterFirst(flags, k + 1)
  }

  /** The scan stopped at a set flag rather than at the end. */
  predicate Stopped(flags: seq<bool>) {
    var n := StopAfterFirst(flags, 0);
    n >= 1 && flags[n - 1]
  }

  lemma {:induction false} StopAfterFirstFrom(flags: seq<bool>, k: nat)
    requires k <= |flags|
    ensures var n := StopAfterFirst(flags, k);
      (n >= k + 1 && flags[n - 1]) <==> exists j :: k <= j < |flags| && flags[j]
    ensures var n := StopAfterFirst(flags, k);
      forall j :: k <= j < n - 1 ==> !flags[j]
    ensures var n := StopAfterFirst(flags, k);
      !(n >= k + 1 && flags[n - 1]) ==> n == |flags|
    decreases |flags| - k
  {
    if k < |flags| && !flags[k] {
      StopAfterFirstFrom(flags, k + 1);
      if j :| k <= j < |flags| && flags[j] {
        assert j != k && k + 1 <= j;
      }
    }
  }

  /** A scan that has read `i` flags and either came to the end or stopped at a set one is done. */
  lemma StopDone(flags: seq<bool>, i: nat, stopped: bool)
    requires i <= |flags| && (i == |flags| || stopped)
    requires !stopped ==> StopAfterFirst(flags, i) == StopAfterFirst(flags, 0)
    requires !stopped && 1 <= i ==> !flags[i - 1]
    requires stopped ==> 1 <= i == StopAfterFirst(flags, 0) && flags[i - 1]
    ensures StopAfterFirst(flags, 0) == i && stopped == Stopped(flags)
  {
  }

  /**
   * The scan stops exactly when some flag is set, and then right after the first of them;
   * otherwise it reads every flag.
   */
  lemma StopAfterFirstIs(flags: seq<bool>)
    ensures Stopped(flags) <==> exists j :: 0 <= j < |flags| && flags[j]
    ensures forall j :: 0 <= j < StopAfterFirst(flags, 0) - 1 ==> !flags[j]
    ensures !Stopped(flags) ==> StopAfterFirst(flags, 0) == |flags|
  {
    StopAfterFirstFrom(flags, 0);
  }

  // ---------------------------------------------------------------------------------------------
  // the running time of delay lines

  /** Line `k` is a delay line that brings the running time to `duration`. */
  predicate Reaches(lines: seq<string>, k: nat, duration: real)
    requires k < |lines|
  {
    LeadingFloat(lines[k]).Some? && TotalDelay(lines[..k + 1]) >= duration
  }

  /** The running time after line `i` is the time before it plus the line's delay. */
  lemma RunningTime(lines: seq<string>, i: nat)
    requires i < |lines|
    ensures TotalDelay(lines[..i + 1]) == TotalDelay(lines[..i]) + Delay(lines[i])
  {
    assert lines[..i + 1] == lines[..i] + [lines[i]];
    TotalDelayAppend(lines[..i], lines[i]);
  }

  /** Which lines reach the duration. */
  function ReachFlags(lines: seq<string>, duration: real): (r: seq<bool>)
    ensures |r| == |lines|
    ensures forall k :: 0 <= k < |r| ==> r[k] == Reaches(lines, k, duration)
  {
    seq(|lines|, k requires 0 <= k < |lines| => Reaches(lines, k, duration))
  }

  /** How many lines the pass of `reannotate` reads: up to the first that reaches the duration. */
  function ReadCount(lines: seq<string>, duration: real): (n: nat)
    ensures n <= |lines|
  {
    StopAfterFirst(ReachFlags(lines, duration), 0)
  }

  /** The pass stops early: some line reaches the duration. */
  predicate Breaks(lines: seq<string>, duration: real) {
    Stopped(ReachFlags(lines, duration))
  }

  /**
   * The pass breaks exactly when some delay line brings the running time to the duration, and
   * then right after the first such line; when none does it reads every line.
   */
  lemma ReadCountIs(lines: seq<string>, duration: real)
    ensures Breaks(lines, duration) <==> exists k :: 0 <= k < |lines| && Reaches(lines, k, duration)
    ensures var n := ReadCount(lines, duration);
      Breaks(lines, duration) ==> 1 <= n && Reaches(lines, n - 1, duration)
                                  && forall k :: 0 <= k && k + 1 < n ==> !Reaches(lines, k, duration)
    ensures !Breaks(lines, duration) ==> ReadCount(lines, duration) == |lines|
  {
    var flags, n := ReachFlags(lines, duration), ReadCount(lines, duration);
    StopAfterFirstIs(flags);
    if k :| 0 <= k < |lines| && Reaches(lines, k, duration) {
      assert flags[k];
    }
    if Breaks(lines, duration) {
      assert flags[n - 1];
      forall k | 0 <= k && k + 1 < n
        ensures !Reaches(lines, k, duration)
      {
        assert !flags[k];
      }
    }
  }

  /** Line `i` reaches the duration exactly when it has a delay that brings the running time to it. */
  lemma ReachesStep(lines: seq<string>, i: nat, time: real, duration: real)
    requires i < |lines| && time == TotalDelay(lines[..i])
    ensures Reaches(lines, i, duration) <==> LeadingFloat(lines[i]).Some? && time + LeadingFloat(lines[i]).value >= duration
  {
    RunningTime(lines, i);
  }

  class ATLImageGenerator {
    const imageName: string
    const transcription: Transcription
    const openMouth: string
    const closedMouth: string
    /** `transcription.confident`, which the transcript record does not define; supplied here. */
    const confident: bool
    /** The number formatting the generated text uses. */
    const f: Formats
    /** The state of `cycle([open_mouth, closed_mouth])`: whether its next image is the open mouth. */
    var openNext: bool
    /** `_atl`, the text `generate_atl` last wrote. */
    var atl: string

    constructor (imageName: string, transcription: Transcription, openMouth: string, closedMouth: string,
                 confident: bool, f: Formats)
      ensures this.imageName == imageName && this.transcription == transcription
      ensures this.openMouth == openMouth && this.closedMouth == closedMouth
      ensures this.confident == confident && this.f == f
      ensures openNext && atl == ""
    {
      this.imageName := imageName;
      this.transcription := transcription;
      this.openMouth := openMouth;
      this.closedMouth := closedMouth;
      this.confident := confident;
      this.f := f;
      openNext := true;
      atl := "";
    }

    /** The `k`-th image the cycle gives, counting from 0, when its state is `first`. */
    function CycleImage(first: bool, k: nat): string {
      if After(first, k) then openMouth else closedMouth
    }

    /** `next(self._images)`. */
    method TakeImage() returns (image: string)
      modifies this
      ensures image == CycleImage(old(openNext), 0)
      ensures openNext == !old(openNext) && atl == old(atl)
    {
      image := if openNext then openMouth else closedMouth;
      openNext := !openNext;
    }

    /** The entries the verbose annotation of `[start, end]` lists, in the order it lists them. */
    function Entries(start: real, end: real): seq<Boundary> {
      SortByTime(SortByTime(EndEvents(transcription.timings, start, end)) + StartEvents(transcription.timings, start, end))
    }

    /** `annotate(start, end, verbose=verbose)`. */
    function Annotate(start: real, end: real, verbose: bool): (r: string)
      ensures IsComment(r)
      ensures verbose ==> r != ""
    {
      var ends := SortByTime(EndEvents(transcription.timings, start, end));
      if !verbose then
        if ends == [] then "" else "  # " + Join(BoundaryWords(ends), ", ")
      else
        var s := "  # animation time: " + f.fixed(start, 3) + " → " + f.fixed(end, 3) + " " + Join(EntryTexts(f, Entries(start, end)), " ");
        assert s[..3] == "  #";
        RStripComment(s);
        RStrip(s)
    }

    /**
     * The terse annotation names the words that end in the window, ordered by end time; words
     * that end at the same time keep their transcript order.
     */
    lemma TerseWords(start: real, end: real)
      ensures Annotate(start, end, false) == "" <==>
        forall k :: 0 <= k < |transcription.timings| ==> !(start <= transcription.timings[k].end <= end)
      ensures var ends := EndEvents(transcription.timings, start, end);
        ends != [] ==> Annotate(start, end, false) == "  # " + Join(BoundaryWords(SortByTime(ends)), ", ")
      ensures var ends := EndEvents(transcription.timings, start, end);
        SortedByTime(SortByTime(ends)) && multiset(SortByTime(ends)) == multiset(ends)
        && forall t :: At(SortByTime(ends), t) == At(ends, t)
    {
      var ends := EndEvents(transcription.timings, start, end);
      EndEventsComplete(transcription.timings, start, end);
      SortByTimeIsStable(ends);
    }

    /**
     * The verbose annotation lists every end and every start in the window, ordered by time, and
     * at any one time the ends come before the starts, each in transcript order.
     */
    lemma VerboseEntries(start: real, end: real, t: real)
      ensures var ends, starts := EndEvents(transcription.timings, start, end), StartEvents(transcription.timings, start, end);
        SortedByTime(Entries(start, end)) && multiset(Entries(start, end)) == multiset(ends + starts)
        && At(Entries(start, end), t) == At(ends, t) + At(starts, t)
    {
      var ends, starts := EndEvents(transcription.timings, start, end), StartEvents(transcription.timings, start, end);
      var sortedEnds := SortByTime(ends);
      SortByTimeIsStable(sortedEnds + starts);
      SortByTimeIsStable(ends);
      calc {
        multiset(Entries(start, end));
        multiset(sortedEnds + starts);
        multiset(sortedEnds) + multiset(starts);
        multiset(ends) + multiset(starts);
        multiset(ends + starts);
      }
      AtAppend(sortedEnds, starts, t);
    }

    // -------------------------------------------------------------------------------------------
    // alternate_frames_for_duration

    /** A delay line: the indented step, then the annotation of the frame's window. */
    function DelayLine(step: real, time: real, verbose: bool): string {
      "    " + f.fixed(step, 3) + Annotate(time, time + step, verbose)
    }

    /** The two lines of each frame: the image the cycle gives, then the delay. */
    function FrameLines(times: seq<real>, step: real, verbose: bool, first: bool): (r: seq<string>)
      ensures |r| == 2 * |times|
    {
      if times == [] then []
      else
        var n := |times| - 1;
        FrameLines(times[..n], step, verbose, first) + [ImageLine(CycleImage(first, n)), DelayLine(step, times[n], verbose)]
    }

    lemma FrameLinesExtend(times: seq<real>, step: real, verbose: bool, first: bool, i: nat)
      requires i < |times|
      ensures FrameLines(times[..i + 1], step, verbose, first)
           == FrameLines(times[..i], step, verbose, first) + [ImageLine(CycleImage(first, i)), DelayLine(step, times[i], verbose)]
    {
      assert times[..i + 1][..i] == times[..i];
    }

    /**
     * What `alternate_frames_for_duration` writes, starting from cycle state `first`: one frame
     * per value of `frange(start, start + duration, step)`, then, when asked to close and the
     * last frame was not the closed mouth (or there was no frame), the cycle's next image.
     */
    function FramesFor(duration: real, start: real, step: real, ensureClose: bool, verbose: bool, first: bool): (r: FrameRun)
      requires step != 0.0
    {
      FramesOf(FRangeSeq(start, start + duration, step), step, ensureClose, verbose, first)
    }

    /** The frames for the given times, and the closing image. */
    function FramesOf(times: seq<real>, step: real, ensureClose: bool, verbose: bool, first: bool): FrameRun {
      var n := |times|;
      var last := if n == 0 then None else Some(CycleImage(first, n - 1));
      var frames := FrameLines(times, step, verbose, first);
      if ensureClose && last != Some(closedMouth) then
        FrameRun(frames + [ImageLine(CycleImage(first, n))], last, After(first, n + 1))
      else
        FrameRun(frames, last, After(first, n))
    }

    /**
     * After a call that wrote at least one frame and was asked to close, the last image shown is
     * the closed mouth and the cycle gives the open mouth next.
     */
    lemma FramesEndClosed(duration: real, start: real, step: real, verbose: bool, first: bool)
      requires step != 0.0 && FRangeSeq(start, start + duration, step) != []
      requires openMouth != closedMouth
      ensures var r, n := FramesFor(duration, start, step, true, verbose, first), |FRangeSeq(start, start + duration, step)|;
        if r.last == Some(closedMouth) then |r.lines| == 2 * n && r.lines[2 * n - 2] == ImageLine(closedMouth)
        else |r.lines| == 2 * n + 1 && r.lines[2 * n] == ImageLine(closedMouth)
      ensures FramesFor(duration, start, step, true, verbose, first).openNext
      ensures CycleImage(FramesFor(duration, start, step, true, verbose, first).openNext, 0) == openMouth
    {
      var times := FRangeSeq(start, start + duration, step);
      var n := |times|;
      var frames := FrameLines(times, step, verbose, first);
      assert frames[2 * (n - 1)] == ImageLine(CycleImage(first, n - 1));
      AfterStep(first, n - 1);
      AfterStep(first, n);
    }

    /**
     * The frames cover at least the requested duration: for a positive step whose written form
     * reads back exactly, the delays they write add up to `step` once per frame, and that many
     * steps reach `duration`.
     */
    lemma FramesCover(duration: real, start: real, step: real, ensureClose: bool, verbose: bool, first: bool)
      requires step > 0.0 && RendersExactly(f.fixed(step, 3), step)
      ensures var n := |FRangeSeq(start, start + duration, step)|;
        TotalDelay(FramesFor(duration, start, step, ensureClose, verbose, first).lines) == Steps(n, step)
        && Steps(n, step) >= duration
    {
      var times := FRangeSeq(start, start + duration, step);
      var n := |times|;
      FramesReach(duration, start, step);
      var frames := FrameLines(times, step, verbose, first);
      FrameLinesTotal(times, step, verbose, first);
      var last := if n == 0 then None else Some(CycleImage(first, n - 1));
      FramesOfParts(times, step, ensureClose, verbose, first, frames, last);
      if ensureClose && last != Some(closedMouth) {
        var close := ImageLine(CycleImage(first, n));
        TotalDelayAppend(frames, close);
        ImageLineDelay(CycleImage(first, n));
      }
    }

    /** A delay line carries its step, when the step is written in a form that reads back exactly. */
    lemma DelayLineDelay(step: real, time: real, verbose: bool)
      requires RendersExactly(f.fixed(step, 3), step)
      ensures Delay(DelayLine(step, time, verbose)) == step
    {
      var comment := Annotate(time, time + step, verbose);
      assert IsComment(comment);
      DelayBeforeComment("    ", f.fixed(step, 3), comment, step);
    }

    /** The frames' delays add up to the frame count times the step. */
    lemma {:induction false} FrameLinesTotal(times: seq<real>, step: real, verbose: bool, first: bool)
      requires RendersExactly(f.fixed(step, 3), step)
      ensures TotalDelay(FrameLines(times, step, verbose, first)) == Steps(|times|, step)
    {
      if times != [] {
        var j := |times| - 1;
        var prior := FrameLines(times[..j], step, verbose, first);
        var image := ImageLine(CycleImage(first, j));
        var delay := DelayLine(step, times[j], verbose);
        FrameLinesTotal(times[..j], step, verbose, first);
        TotalDelayPair(prior, image, delay);
        ImageLineDelay(CycleImage(first, j));
        DelayLineDelay(step, times[j], verbose);
      }
    }

    /** The loop of `alternate_frames_for_duration`: one frame per time, each taking the cycle's next image. */
    method CycleFrames(times: seq<real>, step: real, verbose: bool) returns (lines: seq<string>, image: Option<string>)
      modifies this
      ensures lines == FrameLines(times, step, verbose, old(openNext))
      ensures image == if times == [] then None else Some(CycleImage(old(openNext), |times| - 1))
      ensures openNext == After(old(openNext), |times|) && atl == old(atl)
    {
      ghost var first := openNext;
      lines := [];
      image := None;
      for i := 0 to |times|
        invariant lines == FrameLines(times[..i], step, verbose, first)
        invariant openNext == After(first, i)
        invariant image == if i == 0 then None else Some(CycleImage(first, i - 1))
        invariant atl == old(atl)
      {
        var img := TakeImage();
        assert img == CycleImage(first, i);
        AfterStep(first, i);
        image := Some(img);
        FrameLinesExtend(times, step, verbose, first, i);
        lines := lines + [ImageLine(img), DelayLine(step, times[i], verbose)];
      }
      assert times[..|times|] == times;
    }

    /** `alternate_frames_for_duration(duration, start, time_step, ensure_close=…, verbose=…)`. */
    method AlternateFramesForDuration(duration: real, start: real, step: real, ensureClose: bool, verbose: bool)
      returns (lines: seq<string>, image: Option<string>)
      requires step != 0.0
      modifies this
      ensures FrameRun(lines, image, openNext) == FramesFor(duration, start, step, ensureClose, verbose, old(openNext))
      ensures atl == old(atl)
    {
      var times := FRange(start, start + duration, step);
      lines, image := FramesAt(times, step, ensureClose, verbose);
      assert times == FRangeSeq(start, start + duration, step);
    }

    /** The frames of `alternate_frames_for_duration` once the times are known: the loop, then the closing image. */
    method FramesAt(times: seq<real>, step: real, ensureClose: bool, verbose: bool) returns (lines: seq<string>, image: Option<string>)
      modifies this
      ensures FrameRun(lines, image, openNext) == FramesOf(times, step, ensureClose, verbose, old(openNext))
      ensures atl == old(atl)
    {
      ghost var first := openNext;
      var frames;
      frames, image := CycleFrames(times, step, verbose);
      lines := CloseFrames(frames, image, ensureClose);
      FramesOfClosed(times, step, ensureClose, verbose, first, frames, image, lines, openNext);
    }

    /** The `ensure_close` step: the cycle's next image when the last frame was not the closed mouth. */
    method CloseFrames(lines: seq<string>, image: Option<string>, ensureClose: bool) returns (closed: seq<string>)
      modifies this
      ensures var close := ensureClose && image != Some(closedMouth);
        closed == (if close then lines + [ImageLine(CycleImage(old(openNext), 0))] else lines)
        && openNext == (if close then !old(openNext) else old(openNext))
      ensures atl == old(atl)
    {
      closed := lines;
      if ensureClose && image != Some(closedMouth) {
        var img := TakeImage();
        closed := lines + [ImageLine(img)];
      }
    }

    /** `FramesOf` in terms of the frames the loop wrote and the last image it showed. */
    lemma FramesOfParts(times: seq<real>, step: real, ensureClose: bool, verbose: bool, first: bool,
                        lines: seq<string>, image: Option<string>)
      requires lines == FrameLines(times, step, verbose, first)
      requires image == if times == [] then None else Some(CycleImage(first, |times| - 1))
      ensures FramesOf(times, step, ensureClose, verbose, first)
           == if ensureClose && image != Some(closedMouth) then FrameRun(lines + [ImageLine(CycleImage(first, |times|))], image, After(first, |times| + 1))
              else FrameRun(lines, image, After(first, |times|))
    {
    }

    /** `FramesOf` in terms of the frames the loop wrote, the last image it showed, and the closing step. */
    lemma FramesOfClosed(times: seq<real>, step: real, ensureClose: bool, verbose: bool, first: bool,
                         frames: seq<string>, image: Option<string>, lines: seq<string>, next: bool)
      requires frames == FrameLines(times, step, verbose, first)
      requires image == if times == [] then None else Some(CycleImage(first, |times| - 1))
      requires var mid, close := After(first, |times|), ensureClose && image != Some(closedMouth);
        lines == (if close then frames + [ImageLine(CycleImage(mid, 0))] else frames)
        && next == (if close then !mid else mid)
      ensures FrameRun(lines, image, next) == FramesOf(times, step, ensureClose, verbose, first)
    {
      FramesOfParts(times, step, ensureClose, verbose, first, frames, image);
      CycleShift(first, |times|);
    }

    // -------------------------------------------------------------------------------------------
    // generate_atl and duration

    /** `'' if self.transcription.confident else '(!)'`. */
    function Caution(): string {
      if confident then "" else "(!)"
    }

    /** The three header lines of `generate_atl` for a transcript of the given duration. */
    function AtlHeader(duration: real): seq<string> {
      ["image " + imageName + ":",
       "    # " + Caution() + " Transcription: " + Str(transcription),
       "    # length: " + f.fixed(duration, 3) + " seconds"]
    }

    /** The lines `generate_atl` joins: the header, then frames over the whole transcript from 0. */
    function AtlLines(duration: real, verbose: bool, first: bool): seq<string> {
      AtlHeader(duration) + FramesFor(duration, 0.0, 0.2, true, verbose, first).lines
    }

    /**
     * `generate_atl(verbose=…)`: reading the duration of an empty transcript raises IndexError
     * before anything changes; otherwise the text is stored as `atl` and returned.
     */
    method GenerateAtl(verbose: bool) returns (r: Result<string>)
      modifies this
      ensures transcription.timings == [] ==> r == Err(IndexError) && openNext == old(openNext) && atl == old(atl)
      ensures transcription.timings != [] ==>
        var duration := Transcribe.Duration(transcription).value;
        && r == Ok(atl)
        && atl == Join(AtlLines(duration, verbose, old(openNext)), "\n")
        && openNext == FramesFor(duration, 0.0, 0.2, true, verbose, old(openNext)).openNext
    {
      var duration := Transcribe.Duration(transcription);
      if duration.Err? {
        return Err(duration.error);
      }
      var header := AtlHeader(duration.value);
      var added, _ := AlternateFramesForDuration(duration.value, 0.0, 0.2, true, verbose);
      atl := Join(header + added, "\n");
      r := Ok(atl);
    }

    /** `duration`: the sum of the leading delays of the lines of `atl`. */
    function Duration(): (r: real)
      reads this
      ensures r >= 0.0
    {
      TotalDelayNonNegative(SplitLines(atl));
      TotalDelay(SplitLines(atl))
    }

    /** The header lines of `generate_atl` carry no delay. */
    lemma AtlHeaderDelay(duration: real)
      ensures TotalDelay(AtlHeader(duration)) == 0.0
    {
      HeaderNoDelay(imageName, Caution(), Str(transcription), f.fixed(duration, 3));
    }

    /**
     * The animation `generate_atl` writes lasts at least as long as the transcript, when 0.2 is
     * written as a decimal that reads back as 0.2 and no line of the text holds a line break.
     */
    lemma AtlCoversTranscript(verbose: bool, first: bool)
      requires transcription.timings != []
      requires RendersExactly(f.fixed(0.2, 3), 0.2)
      ensures var duration := Transcribe.Duration(transcription).value;
        TotalDelay(AtlLines(duration, verbose, first)) >= duration
      ensures var lines := AtlLines(Transcribe.Duration(transcription).value, verbose, first);
        (forall k :: 0 <= k < |lines| ==> lines[k] != "" && NoLineBreak(lines[k])) ==>
          TotalDelay(SplitLines(Join(lines, "\n"))) >= Transcribe.Duration(transcription).value
    {
      var duration := Transcribe.Duration(transcription).value;
      var lines := AtlLines(duration, verbose, first);
      AtlHeaderDelay(duration);
      FramesCover(duration, 0.0, 0.2, true, verbose, first);
      TotalDelayConcat(AtlHeader(duration), FramesFor(duration, 0.0, 0.2, true, verbose, first).lines);
      if forall k :: 0 <= k < |lines| ==> lines[k] != "" && NoLineBreak(lines[k]) {
        SplitLinesJoin(lines);
      }
    }

    // -------------------------------------------------------------------------------------------
    // _generate_smart_block and generate_smart_atl

    /**
     * The frame length `_generate_smart_block` divides the word into: its duration over the
     * rounded number of 0.2-second frames, or nothing where that number rounds to 0 (the
     * division raises ZeroDivisionError).
     */
    function SmartStep(w: WordTiming): (r: Option<real>)
      requires f.roundInt(0.0) == 0
      ensures r.None? <==> f.roundInt(WordDuration(w) / 0.2) == 0
      ensures r.Some? ==> r.value != 0.0
    {
      var frames := f.roundInt(WordDuration(w) / 0.2);
      if frames == 0 then None
      else
        assert WordDuration(w) != 0.0;
        Some(WordDuration(w) / frames as real)
    }

    /**
     * What `_generate_smart_block(word, verbose=…)` writes from cycle state `state`: frames over
     * the word's own time span, closed at the end, or ZeroDivisionError when its frame count
     * rounds to 0.
     */
    function Block(w: WordTiming, verbose: bool, state: bool): (r: SmartRun)
      requires f.roundInt(0.0) == 0
      ensures r.result.Err? <==> f.roundInt(WordDuration(w) / 0.2) == 0
      ensures r.result.Err? ==> r.result.error == ZeroDivisionError && r.openNext == state
    {
      match SmartStep(w)
      case None => SmartRun(Err(ZeroDivisionError), state)
      case Some(step) =>
        var run := FramesFor(WordDuration(w), w.start, step, true, verbose, state);
        SmartRun(Ok(run.lines), run.openNext)
    }

    /** `_generate_smart_block(word, verbose=…)`. */
    method SmartBlock(w: WordTiming, verbose: bool) returns (r: Result<seq<string>>)
      requires f.roundInt(0.0) == 0
      modifies this
      ensures SmartRun(r, openNext) == Block(w, verbose, old(openNext))
      ensures atl == old(atl)
    {
      var step := SmartStep(w);
      if step.None? {
        return Err(ZeroDivisionError);
      }
      var lines, _ := AlternateFramesForDuration(WordDuration(w), w.start, step.value, true, verbose);
      r := Ok(lines);
    }

    /** The line `generate_smart_atl` writes after a word whose pause is not 0. */
    function WaitLines(wait: real): seq<string> {
      if wait != 0.0 then ["    " + f.fixed(wait, 3)] else []
    }

    /**
     * The blocks of `generate_smart_atl` from pair `i` of `zip(words, waits)` on, appended to
     * `acc` with the cycle in state `state`: each word's block, then its pause line. The first
     * word whose frame count rounds to 0 stops everything with ZeroDivisionError.
     */
    function SmartBlocks(ws: seq<WordTiming>, waits: seq<real>, i: nat, acc: seq<string>, state: bool, verbose: bool): (r: SmartRun)
      requires f.roundInt(0.0) == 0
      decreases |ws| - i
    {
      if i >= |ws| || i >= |waits| then SmartRun(Ok(acc), state)
      else
        var block := Block(ws[i], verbose, state);
        if block.result.Err? then block
        else SmartBlocks(ws, waits, i + 1, acc + block.result.value + WaitLines(waits[i]), block.openNext, verbose)
    }

    /** One word of the blocks: it fails the blocks, or its block and pause line are appended. */
    lemma SmartBlocksNext(ws: seq<WordTiming>, waits: seq<real>, i: nat, acc: seq<string>, state: bool, verbose: bool)
      requires f.roundInt(0.0) == 0 && i < |ws| && i < |waits|
      ensures var block := Block(ws[i], verbose, state);
        SmartBlocks(ws, waits, i, acc, state, verbose)
        == if block.result.Err? then block
           else SmartBlocks(ws, waits, i + 1, acc + block.result.value + WaitLines(waits[i]), block.openNext, verbose)
    {
    }

    /** A failure of the blocks is a ZeroDivisionError; a success keeps everything written before them. */
    lemma {:induction false} SmartBlocksKeep(ws: seq<WordTiming>, waits: seq<real>, i: nat, acc: seq<string>, state: bool, verbose: bool)
      requires f.roundInt(0.0) == 0
      ensures var r := SmartBlocks(ws, waits, i, acc, state, verbose);
        && (r.result.Err? ==> r.result.error == ZeroDivisionError)
        && (r.result.Ok? ==> |acc| <= |r.result.value| && r.result.value[..|acc|] == acc)
      decreases |ws| - i
    {
      if i < |ws| && i < |waits| {
        SmartBlocksNext(ws, waits, i, acc, state, verbose);
        var block := Block(ws[i], verbose, state);
        if block.result.Ok? {
          var next := acc + block.result.value + WaitLines(waits[i]);
          SmartBlocksKeep(ws, waits, i + 1, next, block.openNext, verbose);
          ExtendedPrefix(acc, block.result.value, WaitLines(waits[i]),
                         SmartBlocks(ws, waits, i + 1, next, block.openNext, verbose).result);
        }
      }
    }

    /** The blocks fail only at a word whose frame count rounds to 0. */
    lemma {:induction false} SmartBlocksFailAt(ws: seq<WordTiming>, waits: seq<real>, i: nat, acc: seq<string>, state: bool, verbose: bool)
      requires f.roundInt(0.0) == 0
      requires SmartBlocks(ws, waits, i, acc, state, verbose).result.Err?
      ensures exists k :: i <= k < |ws| && k < |waits| && SmartStep(ws[k]).None?
      decreases |ws| - i
    {
      SmartBlocksNext(ws, waits, i, acc, state, verbose);
      var block := Block(ws[i], verbose, state);
      if block.result.Ok? {
        SmartBlocksFailAt(ws, waits, i + 1, acc + block.result.value + WaitLines(waits[i]), block.openNext, verbose);
      }
    }

    /** A word of the zipped pairs whose frame count rounds to 0 makes the blocks fail. */
    lemma {:induction false} SmartBlocksFail(ws: seq<WordTiming>, waits: seq<real>, i: nat, acc: seq<string>, state: bool, verbose: bool, k: nat)
      requires f.roundInt(0.0) == 0
      requires i <= k < |ws| && k < |waits| && SmartStep(ws[k]).None?
      ensures SmartBlocks(ws, waits, i, acc, state, verbose).result.Err?
      decreases k - i
    {
      SmartBlocksNext(ws, waits, i, acc, state, verbose);
      var block := Block(ws[i], verbose, state);
      if i == k {
        assert block == SmartRun(Err(ZeroDivisionError), state);
      } else if block.result.Ok? {
        SmartBlocksFail(ws, waits, i + 1, acc + block.result.value + WaitLines(waits[i]), block.openNext, verbose, k);
      }
    }

    /**
     * The blocks fail exactly when a word of the zipped pairs has a frame count that rounds to
     * 0, and then with ZeroDivisionError; otherwise they keep everything written before them.
     */
    lemma SmartBlocksOutcome(ws: seq<WordTiming>, waits: seq<real>, acc: seq<string>, state: bool, verbose: bool)
      requires f.roundInt(0.0) == 0
      ensures var r := SmartBlocks(ws, waits, 0, acc, state, verbose);
        r.result.Err? <==> exists k :: 0 <= k < |ws| && k < |waits| && SmartStep(ws[k]).None?
      ensures var r := SmartBlocks(ws, waits, 0, acc, state, verbose);
        r.result.Err? ==> r.result.error == ZeroDivisionError
      ensures var r := SmartBlocks(ws, waits, 0, acc, state, verbose);
        r.result.Ok? ==> |acc| <= |r.result.value| && r.result.value[..|acc|] == acc
    {
      SmartBlocksKeep(ws, waits, 0, acc, state, verbose);
      if SmartBlocks(ws, waits, 0, acc, state, verbose).result.Err? {
        SmartBlocksFailAt(ws, waits, 0, acc, state, verbose);
      }
      if k :| 0 <= k < |ws| && k < |waits| && SmartStep(ws[k]).None? {
        SmartBlocksFail(ws, waits, 0, acc, state, verbose, k);
      }
    }

    /** The five header lines of `generate_smart_atl`. */
    function SmartHeader(duration: real, start: real): seq<string> {
      ["image " + imageName + ":",
       "    # " + Caution() + " Transcription: " + Str(transcription),
       "    # length: " + f.fixed(duration, 2) + " seconds",
       "    " + closedMouth,
       "    " + f.show(start)]
    }

    /** One turn of the loop of `generate_smart_atl`: word `i`'s block and pause line, or the failure. */
    method NextBlock(ts: seq<WordTiming>, waits: seq<real>, i: nat, written: seq<string>, verbose: bool)
      returns (failed: bool, next: seq<string>)
      requires f.roundInt(0.0) == 0 && i < |ts| && i < |waits|
      modifies this
      ensures failed ==> SmartBlocks(ts, waits, i, written, old(openNext), verbose) == SmartRun(Err(ZeroDivisionError), openNext)
      ensures !failed ==> SmartBlocks(ts, waits, i, written, old(openNext), verbose) == SmartBlocks(ts, waits, i + 1, next, openNext, verbose)
      ensures atl == old(atl)
    {
      SmartBlocksNext(ts, waits, i, written, openNext, verbose);
      var block := SmartBlock(ts[i], verbose);
      failed, next := block.Err?, written;
      if block.Ok? {
        next := written + block.value + WaitLines(waits[i]);
      }
    }

    /** The loop of `generate_smart_atl` over `zip(words, waits)`, appending to `lines`. */
    method WriteSmartBlocks(ts: seq<WordTiming>, waits: seq<real>, lines: seq<string>, verbose: bool) returns (r: Result<seq<string>>)
      requires f.roundInt(0.0) == 0
      modifies this
      ensures SmartRun(r, openNext) == SmartBlocks(ts, waits, 0, lines, old(openNext), verbose)
      ensures atl == old(atl)
    {
      ghost var all := SmartBlocks(ts, waits, 0, lines, openNext, verbose);
      var written, failed := lines, false;
      var i := 0;
      while i < |ts| && i < |waits| && !failed
        invariant 0 <= i <= |ts|
        invariant !failed ==> SmartBlocks(ts, waits, i, written, openNext, verbose) == all
        invariant failed ==> all == SmartRun(Err(ZeroDivisionError), openNext)
        invariant atl == old(atl)
        decreases |ts| - i
      {
        failed, written := NextBlock(ts, waits, i, written, verbose);
        i := i + 1;
      }
      r := if failed then Err(ZeroDivisionError) else Ok(written);
    }

    /**
     * `generate_smart_atl(verbose=…)`: the header, then each word's block and pause line. An
     * empty transcript raises IndexError; the blocks written before a ZeroDivisionError have
     * moved the cycle on. Unlike `generate_atl`, it leaves `atl` as it was.
     */
    method GenerateSmartAtl(verbose: bool) returns (r: Result<string>)
      requires f.roundInt(0.0) == 0
      modifies this
      ensures transcription.timings == [] ==> r == Err(IndexError) && openNext == old(openNext)
      ensures transcription.timings != [] ==>
        var ts := transcription.timings;
        var run := SmartBlocks(ts, WaitsOf(ts), 0, SmartHeader(Transcribe.Duration(transcription).value, ts[0].start), old(openNext), verbose);
        openNext == run.openNext && r == (if run.result.Ok? then Ok(Join(run.result.value, "\n")) else Err(run.result.error))
      ensures atl == old(atl)
    {
      var duration := Transcribe.Duration(transcription);
      var start := Transcribe.Start(transcription);
      if duration.Err? || start.Err? {
        return Err(IndexError);
      }
      var waits := Waits(transcription);
      var blocks := WriteSmartBlocks(transcription.timings, waits, SmartHeader(duration.value, start.value), verbose);
      if blocks.Err? {
        return Err(blocks.error);
      }
      r := Ok(Join(blocks.value, "\n"));
    }

    // -------------------------------------------------------------------------------------------
    // reannotate

    /** A delay line as `reannotate` rewrites it: its prefix, its pause to two places, the annotation of its window. */
    function RewriteLine(line: string, pause: real, time: real, verbose: bool): string {
      SpacePrefix(line) + f.fixed(pause, 2) + Annotate(time, time + pause, verbose)
    }

    /** A rewritten line keeps its prefix and, where the pause is written in a form that reads back exactly, its delay. */
    lemma RewriteLineDelay(line: string, pause: real, time: real, verbose: bool)
      requires RendersExactly(f.fixed(pause, 2), pause)
      ensures Delay(RewriteLine(line, pause, time, verbose)) == pause
      ensures SpacePrefix(RewriteLine(line, pause, time, verbose)) == SpacePrefix(line)
    {
      var comment := Annotate(time, time + pause, verbose);
      assert comment == [] || comment[0] == comment[..3][0] == ' ';
      MatchDelayOf(SpacePrefix(line), f.fixed(pause, 2), comment);
    }

    /** A line as `reannotate` writes it at running time `time`: copied without a delay, rewritten with one. */
    function PassLine(line: string, time: real, verbose: bool): string {
      match LeadingFloat(line)
      case None => line
      case Some(pause) => RewriteLine(line, pause, time, verbose)
    }

    /** Line `k` as `reannotate` writes it: at the time the delays of the lines before it add up to. */
    function ReannotatedLine(lines: seq<string>, k: nat, verbose: bool): string
      requires k < |lines|
    {
      PassLine(lines[k], TotalDelay(lines[..k]), verbose)
    }

    /** The first `n` lines, each as `reannotate` writes it. */
    function ReannotatedLines(lines: seq<string>, n: nat, verbose: bool): (r: seq<string>)
      requires n <= |lines|
      ensures |r| == n
    {
      if n == 0 then [] else ReannotatedLines(lines, n - 1, verbose) + [ReannotatedLine(lines, n - 1, verbose)]
    }

    /** One more line written by the pass. */
    lemma ReannotatedLinesNext(lines: seq<string>, i: nat, time: real, verbose: bool)
      requires i < |lines| && time == TotalDelay(lines[..i])
      ensures ReannotatedLines(lines, i + 1, verbose) == ReannotatedLines(lines, i, verbose) + [PassLine(lines[i], time, verbose)]
    {
    }

    /** A line without a delay is passed through; a delay line keeps its prefix and its delay. */
    lemma ReannotatedLineKeeps(lines: seq<string>, k: nat, verbose: bool)
      requires k < |lines|
      ensures LeadingFloat(lines[k]).None? ==> ReannotatedLine(lines, k, verbose) == lines[k]
      ensures LeadingFloat(lines[k]).Some? && RendersExactly(f.fixed(Delay(lines[k]), 2), Delay(lines[k])) ==>
        Delay(ReannotatedLine(lines, k, verbose)) == Delay(lines[k])
        && SpacePrefix(ReannotatedLine(lines, k, verbose)) == SpacePrefix(lines[k])
    {
      if LeadingFloat(lines[k]).Some? && RendersExactly(f.fixed(Delay(lines[k]), 2), Delay(lines[k])) {
        RewriteLineDelay(lines[k], Delay(lines[k]), TotalDelay(lines[..k]), verbose);
      }
    }

    /** One turn of the loop of `reannotate`: the line it writes, the time after it, and whether it breaks there. */
    method PassStep(lines: seq<string>, i: nat, time: real, duration: real, verbose: bool)
      returns (line: string, after: real, broke: bool)
      requires i < |lines| && time == TotalDelay(lines[..i])
      ensures line == PassLine(lines[i], time, verbose)
      ensures after == TotalDelay(lines[..i + 1])
      ensures broke == Reaches(lines, i, duration)
    {
      ReachesStep(lines, i, time, duration);
      RunningTime(lines, i);
      var pause := LeadingFloat(lines[i]);
      after, broke := time, false;
      if pause.None? {
        line := lines[i];
      } else {
        line := RewriteLine(lines[i], pause.value, time, verbose);
        after := time + pause.value;
        broke := after >= duration;
      }
    }

    /** What the loop of `reannotate` has done after reading `i` lines. */
    predicate PassState(lines: seq<string>, duration: real, verbose: bool, i: nat, written: seq<string>, time: real, broke: bool) {
      var flags := ReachFlags(lines, duration);
      && i <= |lines|
      && written == ReannotatedLines(lines, i, verbose)
      && time == TotalDelay(lines[..i])
      && (!broke ==> StopAfterFirst(flags, i) == ReadCount(lines, duration))
      && (!broke && 1 <= i ==> !flags[i - 1])
      && (broke ==> 1 <= i == ReadCount(lines, duration) && flags[i - 1])
    }

    lemma PassStart(lines: seq<string>, duration: real, verbose: bool)
      ensures PassState(lines, duration, verbose, 0, [], 0.0, false)
    {
      assert lines[..0] == [];
    }

    lemma PassAdvance(lines: seq<string>, duration: real, verbose: bool, i: nat, written: seq<string>, time: real,
                      line: string, after: real, broke: bool)
      requires PassState(lines, duration, verbose, i, written, time, false) && i < |lines|
      requires line == PassLine(lines[i], time, verbose)
      requires after == TotalDelay(lines[..i + 1]) && broke == Reaches(lines, i, duration)
      ensures PassState(lines, duration, verbose, i + 1, written + [line], after, broke)
    {
      ReannotatedLinesNext(lines, i, time, verbose);
      var flags := ReachFlags(lines, duration);
      assert flags[i] == broke;
      assert StopAfterFirst(flags, i) == if broke then i + 1 else StopAfterFirst(flags, i + 1);
    }

    lemma PassDone(lines: seq<string>, duration: real, verbose: bool, i: nat, written: seq<string>, time: real, broke: bool)
      requires PassState(lines, duration, verbose, i, written, time, broke) && (i == |lines| || broke)
      ensures written == ReannotatedLines(lines, ReadCount(lines, duration), verbose)
      ensures time == TotalDelay(lines[..|written|])
      ensures broke == Breaks(lines, duration)
    {
      StopDone(ReachFlags(lines, duration), i, broke);
    }

    /**
     * The loop of `reannotate`: it writes the lines it reads, each as `ReannotatedLine` says,
     * reaches the sum of their delays, and breaks right after the first delay line that
     * brings that sum to `duration`.
     */
    method PassOver(lines: seq<string>, duration: real, verbose: bool) returns (written: seq<string>, time: real, broke: bool)
      ensures written == ReannotatedLines(lines, ReadCount(lines, duration), verbose)
      ensures time == TotalDelay(lines[..|written|])
      ensures broke == Breaks(lines, duration)
    {
      written, time, broke := [], 0.0, false;
      PassStart(lines, duration, verbose);
      var i := 0;
      while i < |lines| && !broke
        invariant PassState(lines, duration, verbose, i, written, time, broke)
        decreases |lines| - i
      {
        var line, after, reached := PassStep(lines, i, time, duration, verbose);
        PassAdvance(lines, duration, verbose, i, written, time, line, after, reached);
        written, time, broke := written + [line], after, reached;
        i := i + 1;
      }
      PassDone(lines, duration, verbose, i, written, time, broke);
    }

    /** The frames `reannotate` appends after a pass that reached `time`: only when it did not break and time remains. */
    function TailFor(duration: real, time: real, broke: bool, verbose: bool, first: bool): FrameRun {
      if !broke && time < duration then FramesFor(duration - time, time, 0.2, true, verbose, first)
      else FrameRun([], None, first)
    }

    /** The frames `reannotate` appends after its pass over `lines`. */
    function ReannotateTail(lines: seq<string>, duration: real, verbose: bool, first: bool): FrameRun {
      TailFor(duration, TotalDelay(lines[..ReadCount(lines, duration)]), Breaks(lines, duration), verbose, first)
    }

    /** The `else` branch of the loop of `reannotate`: append frames for the time that remains. */
    method TailFrames(duration: real, time: real, broke: bool, verbose: bool) returns (added: seq<string>)
      modifies this
      ensures var tail := TailFor(duration, time, broke, verbose, old(openNext));
        added == tail.lines && openNext == tail.openNext
      ensures atl == old(atl)
    {
      added := [];
      if !broke && time < duration {
        assert TailFor(duration, time, broke, verbose, openNext) == FramesFor(duration - time, time, 0.2, true, verbose, openNext);
        var last;
        added, last := AlternateFramesForDuration(duration - time, time, 0.2, true, verbose);
      }
    }

    /**
     * `reannotate(atl, verbose=…)`. The duration of an empty transcript raises IndexError (at
     * the first delay line, or after the last line if none has a delay) before anything changes.
     */
    method Reannotate(text: string, verbose: bool) returns (r: Result<string>)
      modifies this
      ensures transcription.timings == [] ==> r == Err(IndexError) && openNext == old(openNext)
      ensures transcription.timings != [] ==>
        var duration, lines := Transcribe.Duration(transcription).value, SplitLines(text);
        var tail := ReannotateTail(lines, duration, verbose, old(openNext));
        r == Ok(Join(ReannotatedLines(lines, ReadCount(lines, duration), verbose) + tail.lines, "\n"))
        && openNext == tail.openNext
      ensures atl == old(atl)
    {
      var duration := Transcribe.Duration(transcription);
      if duration.Err? {
        return Err(IndexError);
      }
      var lines := SplitLines(text);
      var written, time, broke := PassOver(lines, duration.value, verbose);
      var added := TailFrames(duration.value, time, broke, verbose);
      written := written + added;
      r := Ok(Join(written, "\n"));
    }
  }
}
