/**
 * stlr/models.py: `OpenAIWhisper.reconcile`, which puts vosk's word timings onto whisper's
 * segments when both transcripts hold the same number of words and otherwise falls back to the
 * naive single-segment result or to the interactive assistant, and `ModelManager`, the cache of
 * loaded models.
 */
module Models {
  import opened Wrappers
  import opened Text
  import opened Streams
  import opened Transcribe
  import Hoshi
  import Config

  // ---------------------------------------------------------------------------------------------
  // the matching path

  /** The word lists of the segments, in order. */
  function SegmentWords(segments: seq<WhisperSegment>): (r: seq<seq<WordTiming>>)
    ensures |r| == |segments| && forall k :: 0 <= k < |r| ==> r[k] == segments[k].words
  {
    seq(|segments|, k requires 0 <= k < |segments| => segments[k].words)
  }

  /**
   * The segments `_reconcile_matching` leaves behind: each keeps its times and text, and its
   * words become what `[v for v, _ in zip(viter, segment["text"].split())]` takes from the one
   * shared iterator over vosk's timings.
   */
  function MatchedSegments(segments: seq<WhisperSegment>, vosk: seq<WordTiming>): (r: seq<WhisperSegment>)
    ensures |r| == |segments|
    ensures forall k :: 0 <= k < |r| ==>
      r[k].start == segments[k].start && r[k].end == segments[k].end && r[k].text == segments[k].text
    ensures forall k :: 0 <= k < |r| ==> |r[k].words| <= |Split(segments[k].text)|
    ensures SegmentWords(r) == ZipAheadGroups(Hoshi.SegmentCounts(segments), vosk)
  {
    var groups := ZipAheadGroups(Hoshi.SegmentCounts(segments), vosk);
    seq(|segments|, k requires 0 <= k < |segments| => segments[k].(words := groups[k]))
  }

  /**
   * `assert next(viter, None) is None` fails exactly when vosk has more timings than the
   * segments' words plus the one timing each segment drops.
   */
  lemma MatchingAssertFails(segments: seq<WhisperSegment>, vosk: seq<WordTiming>)
    ensures var counts := Hoshi.SegmentCounts(segments);
      ZipAheadLeft(counts, vosk) != [] <==> |vosk| > SumNat(counts) + |segments|
  {
    ZipAheadLeftIsSuffix(Hoshi.SegmentCounts(segments), vosk);
  }

  /**
   * As written, a first segment with fewer words than there are timings makes the segments
   * hold fewer timings than vosk produced, even when the word counts agree.
   */
  lemma MatchingLosesTimings(segments: seq<WhisperSegment>, vosk: seq<WordTiming>)
    requires segments != [] && |Split(segments[0].text)| < |vosk|
    ensures |Concat(SegmentWords(MatchedSegments(segments, vosk)))| < |vosk|
  {
    ZipAheadLoses(Hoshi.SegmentCounts(segments), vosk);
  }

  /**
   * When the segments' words number as many as vosk's timings, the assert passes, yet a first
   * segment shorter than the whole still leaves timings unassigned: the assert does not catch
   * the loss.
   */
  lemma MatchingLossUndetected(segments: seq<WhisperSegment>, vosk: seq<WordTiming>)
    requires SumNat(Hoshi.SegmentCounts(segments)) == |vosk|
    ensures ZipAheadLeft(Hoshi.SegmentCounts(segments), vosk) == []
    ensures segments != [] && |Split(segments[0].text)| < |vosk| ==>
      |Concat(SegmentWords(MatchedSegments(segments, vosk)))| < |vosk|
  {
    MatchingAssertFails(segments, vosk);
    if segments != [] && |Split(segments[0].text)| < |vosk| {
      MatchingLosesTimings(segments, vosk);
    }
  }

  /** Two segments of two words each and four timings: the second segment gets one word. */
  lemma MatchingExample(a: WhisperSegment, b: WhisperSegment, v: seq<WordTiming>)
    requires |Split(a.text)| == 2 && |Split(b.text)| == 2 && |v| == 4
    ensures MatchedSegments([a, b], v)[1].words == [v[3]]
    ensures ZipAheadLeft(Hoshi.SegmentCounts([a, b]), v) == []
  {
    var counts := Hoshi.SegmentCounts([a, b]);
    assert counts == [2, 2];
    assert counts[1..] == [2];
    assert ZipAheadGroups(counts, v) == [v[..2]] + ZipAheadGroups([2], v[3..]);
    assert ZipAheadGroups([2], v[3..]) == [v[3..][..1]] + ZipAheadGroups([], v[4..]);
    assert v[3..][..1] == [v[3]];
    assert SegmentWords(MatchedSegments([a, b], v))[1] == [v[3]];
    MatchingAssertFails([a, b], v);
  }

  /** Segments that agree with the matched segments one by one are the matched segments. */
  lemma MatchedSegmentsAre(segments: seq<WhisperSegment>, vosk: seq<WordTiming>, s: seq<WhisperSegment>)
    requires |s| == |segments|
    requires forall k :: 0 <= k < |s| ==> s[k] == segments[k].(words := ZipAheadGroups(Hoshi.SegmentCounts(segments), vosk)[k])
    ensures s == MatchedSegments(segments, vosk)
  {
  }

  /** The loop of `_reconcile_matching` after `i` segments: those are overwritten, the rest untouched. */
  ghost predicate MatchedUpTo(segments: array<WhisperSegment>, viter: Stream<WordTiming>, i: nat,
                              original: seq<WhisperSegment>, vosk: seq<WordTiming>)
    reads segments, viter
  {
    var counts := Hoshi.SegmentCounts(original);
    && i <= segments.Length == |original|
    && viter.Valid()
    && (forall k :: i <= k < segments.Length ==> segments[k] == original[k])
    && (forall k :: 0 <= k < i ==> segments[k] == original[k].(words := ZipAheadGroups(counts, vosk)[k]))
    && viter.Rest() == ZipAheadLeft(counts[..i], vosk)
  }

  /** One segment of `_reconcile_matching`: its words become the next group of the shared iterator. */
  method MatchSegment(segments: array<WhisperSegment>, viter: Stream<WordTiming>, i: nat,
                      ghost original: seq<WhisperSegment>, ghost vosk: seq<WordTiming>)
    requires MatchedUpTo(segments, viter, i, original, vosk) && i < segments.Length
    modifies segments, viter
    ensures MatchedUpTo(segments, viter, i + 1, original, vosk)
  {
    ghost var counts := Hoshi.SegmentCounts(original);
    ghost var group := ZipAheadGroups(counts, vosk)[i];
    ZipAheadGroupAt(counts, vosk, i);
    ZipAheadLeftExtend(counts, vosk, i);
    assert segments[i] == original[i] && |Split(segments[i].text)| == counts[i];
    var taken := viter.ZipAhead(|Split(segments[i].text)|);
    assert taken == group && viter.Rest() == ZipAheadLeft(counts[..i + 1], vosk);
    segments[i] := segments[i].(words := taken);
  }

  /**
   * `_reconcile_matching` on `whisper_result` whose segment list is `segments`: every segment's
   * words are overwritten in place, then the shared iterator must be exhausted. The segments
   * stay overwritten when the assertion fails.
   */
  method ReconcileMatching(language: Option<string>, text: string, segments: array<WhisperSegment>, vosk: seq<WordTiming>)
    returns (r: Result<WhisperResult>)
    modifies segments
    ensures segments[..] == MatchedSegments(old(segments[..]), vosk)
    ensures r.Err? <==> ZipAheadLeft(Hoshi.SegmentCounts(old(segments[..])), vosk) != []
    ensures r.Err? ==> r.error == AssertionError
    ensures r.Ok? ==> r.value == WhisperResult(language, text, segments[..])
  {
    ghost var original := segments[..];
    ghost var counts := Hoshi.SegmentCounts(original);
    var viter := new Stream(vosk);
    assert counts[..0] == [];
    for i := 0 to segments.Length
      invariant MatchedUpTo(segments, viter, i, original, vosk)
    {
      MatchSegment(segments, viter, i, original, vosk);
    }
    assert counts[..segments.Length] == counts;
    MatchedSegmentsAre(original, vosk, segments[..]);
    var last := viter.Next();
    if last.Some? {
      r := Err(AssertionError);
    } else {
      r := Ok(WhisperResult(language, text, segments[..]));
    }
  }

  /**
   * The evidently intended matching path: `zip(segment["text"].split(), viter)`, which takes as
   * many timings as the segment has words and drops none.
   */
  function MatchedSegmentsCorrected(segments: seq<WhisperSegment>, vosk: seq<WordTiming>): (r: seq<WhisperSegment>)
    ensures |r| == |segments|
    ensures forall k :: 0 <= k < |r| ==>
      r[k].start == segments[k].start && r[k].end == segments[k].end && r[k].text == segments[k].text
    ensures SegmentWords(r) == InOrderGroups(Hoshi.SegmentCounts(segments), vosk)
  {
    var groups := InOrderGroups(Hoshi.SegmentCounts(segments), vosk);
    seq(|segments|, k requires 0 <= k < |segments| => segments[k].(words := groups[k]))
  }

  /**
   * When the segments hold as many words as vosk has timings, the corrected path gives every
   * segment one timing per word and hands out all the timings, in order.
   */
  lemma CorrectedMatchingAssignsAll(segments: seq<WhisperSegment>, vosk: seq<WordTiming>)
    requires SumNat(Hoshi.SegmentCounts(segments)) == |vosk|
    ensures var r := MatchedSegmentsCorrected(segments, vosk);
      forall k :: 0 <= k < |r| ==> |r[k].words| == |Split(segments[k].text)|
    ensures Concat(SegmentWords(MatchedSegmentsCorrected(segments, vosk))) == vosk
    ensures InOrderLeft(Hoshi.SegmentCounts(segments), vosk) == []
  {
    var counts := Hoshi.SegmentCounts(segments);
    InOrderGroupSizes(counts, vosk);
    InOrderIsPrefix(counts, vosk);
    InOrderLeftIsSuffix(counts, vosk);
    assert vosk[..|vosk|] == vosk;
  }

  // ---------------------------------------------------------------------------------------------
  // the unmatching path

  /**
   * The naive branch of `_reconcile_unmatching`: one segment spanning vosk's earliest start to
   * its latest end, holding vosk's words and their space-joined text; `min` of no timings raises
   * ValueError. The language defaults to "en".
   */
  function Naive(whisper: WhisperResult, vosk: seq<WordTiming>): (r: Result<WhisperResult>)
    ensures r.Err? <==> vosk == []
    ensures r.Err? ==> r.error == ValueError
    ensures r.Ok? ==> r.value.language == Some(whisper.language.GetOr("en"))
    ensures r.Ok? ==> |r.value.segments| == 1 && r.value.segments[0].words == vosk
    ensures r.Ok? ==> forall k :: 0 <= k < |vosk| ==> r.value.segments[0].start <= vosk[k].start
    ensures r.Ok? ==> forall k :: 0 <= k < |vosk| ==> vosk[k].end <= r.value.segments[0].end
    ensures r.Ok? ==> exists k :: 0 <= k < |vosk| && r.value.segments[0].start == vosk[k].start
    ensures r.Ok? ==> exists k :: 0 <= k < |vosk| && r.value.segments[0].end == vosk[k].end
  {
    if vosk == [] then Err(ValueError)
    else
      var text := Join(WordsOf(vosk), " ");
      Ok(WhisperResult(Some(whisper.language.GetOr("en")), text,
                       [WhisperSegment(MinOf(Starts(vosk)), MaxOf(Ends(vosk)), text, vosk)]))
  }

  /** `w.word for w in vosk_result`. */
  function WordsOf(ws: seq<WordTiming>): (r: seq<string>)
    ensures |r| == |ws| && forall k :: 0 <= k < |ws| ==> r[k] == ws[k].word
  {
    seq(|ws|, k requires 0 <= k < |ws| => ws[k].word)
  }

  /** The naive text splits back into vosk's words when each is a single whitespace-free word. */
  lemma NaiveTextSplits(whisper: WhisperResult, vosk: seq<WordTiming>)
    requires Naive(whisper, vosk).Ok?
    requires forall k :: 0 <= k < |vosk| ==> IsWord(vosk[k].word)
    ensures Split(Naive(whisper, vosk).value.segments[0].text) == WordsOf(vosk)
  {
    SplitJoin(WordsOf(vosk));
  }

  predicate IsNaive(reconciliation: string) {
    reconciliation in {"naive", "naïve"}
  }

  /**
   * `_reconcile_unmatching` with `CONFIG.hoshi.reconciliation`: the naive result, or else what
   * the interactive assistant leaves in `whisper_result` (given here as `assisted`).
   */
  function Unmatching(whisper: WhisperResult, vosk: seq<WordTiming>, reconciliation: string, assisted: WhisperResult)
    : (r: Result<WhisperResult>)
    ensures IsNaive(reconciliation) ==> r == Naive(whisper, vosk)
    ensures !IsNaive(reconciliation) ==> r == Ok(assisted)
  {
    if IsNaive(reconciliation) then Naive(whisper, vosk) else Ok(assisted)
  }

  /** Under a validated configuration the naive branch never runs. */
  lemma ValidatedConfigIsNeverNaive(whisper: WhisperResult, vosk: seq<WordTiming>, hoshi: Option<Config.Value>, assisted: WhisperResult)
    requires Config.MakeHoshiSettings(hoshi).Ok?
    ensures Unmatching(whisper, vosk, Config.MakeHoshiSettings(hoshi).value.reconciliation, assisted) == Ok(assisted)
  {
    Config.ValidatedModeIsNotNaive(hoshi);
  }

  /**
   * `OpenAIWhisper.reconcile`: the matching path (in place on the segments) exactly when
   * whisper's text and vosk hold the same number of words, the unmatching path otherwise.
   */
  method Reconcile(language: Option<string>, text: string, segments: array<WhisperSegment>, vosk: seq<WordTiming>,
                   reconciliation: string, assisted: WhisperResult)
    returns (r: Result<WhisperResult>)
    modifies segments
    ensures |Split(text)| == |vosk| ==> segments[..] == MatchedSegments(old(segments[..]), vosk)
    ensures |Split(text)| == |vosk| ==>
      r == if ZipAheadLeft(Hoshi.SegmentCounts(old(segments[..])), vosk) == [] then Ok(WhisperResult(language, text, segments[..]))
           else Err(AssertionError)
    ensures |Split(text)| != |vosk| ==> segments[..] == old(segments[..])
    ensures |Split(text)| != |vosk| ==>
      r == Unmatching(WhisperResult(language, text, segments[..]), vosk, reconciliation, assisted)
  {
    var whisperWords := |Split(text)|;
    var voskWords := |vosk|;
    if whisperWords == voskWords {
      r := ReconcileMatching(language, text, segments, vosk);
    } else {
      r := Unmatching(WhisperResult(language, text, segments[..]), vosk, reconciliation, assisted);
    }
  }

  /** `reconcile` with the corrected matching path, as a value. */
  function ReconcileCorrected(whisper: WhisperResult, vosk: seq<WordTiming>, reconciliation: string, assisted: WhisperResult)
    : (r: Result<WhisperResult>)
    ensures |Split(whisper.text)| != |vosk| ==> r == Unmatching(whisper, vosk, reconciliation, assisted)
    ensures |Split(whisper.text)| == |vosk| && SumNat(Hoshi.SegmentCounts(whisper.segments)) == |vosk| ==>
      r.Ok? && Concat(SegmentWords(r.value.segments)) == vosk
  {
    if |Split(whisper.text)| == |vosk| then
      var counts := Hoshi.SegmentCounts(whisper.segments);
      var segments := MatchedSegmentsCorrected(whisper.segments, vosk);
      InOrderIsPrefix(counts, vosk);
      InOrderLeftIsSuffix(counts, vosk);
      assert vosk[..|vosk|] == vosk;
      if InOrderLeft(counts, vosk) == [] then Ok(whisper.(segments := segments)) else Err(AssertionError)
    else Unmatching(whisper, vosk, reconciliation, assisted)
  }

  // ---------------------------------------------------------------------------------------------
  // the model cache

  /** The libraries `ModelManager.get` can load from. */
  const LoaderLibraries: set<string> := {"openai-whisper", "whisper-timestamped", "stable-whisper"}

  /** A validated configuration names a library the manager can load from. */
  lemma ConfiguredLibraryLoads(v: Config.Value)
    requires Config.In(v, Config.WhisperLibraries)
    ensures v.s in LoaderLibraries
  {
  }

  /** A loaded model: the library, model name and device it was loaded with. */
  datatype Model = Model(library: string, name: string, device: Option<string>)

  /**
   * `ModelManager.get` on the cache `models`: the model and the cache after the call. An unknown
   * library raises ValueError; a key already present returns its model whatever the device;
   * a new key is loaded and added, and no other entry changes.
   */
  function Lookup(models: map<(string, string), Model>, library: string, name: string, device: Option<string>)
    : (r: (Result<Model>, map<(string, string), Model>))
    ensures library !in LoaderLibraries ==> r == (Err(ValueError), models)
    ensures library in LoaderLibraries ==> r.0.Ok? && (library, name) in r.1 && r.0.value == r.1[(library, name)]
    ensures library in LoaderLibraries && (library, name) in models ==> r == (Ok(models[(library, name)]), models)
    ensures library in LoaderLibraries && (library, name) !in models ==> r.0 == Ok(Model(library, name, device))
    ensures models.Keys <= r.1.Keys && r.1.Keys <= models.Keys + {(library, name)}
    ensures forall key :: key in models ==> r.1[key] == models[key]
  {
    if library !in LoaderLibraries then (Err(ValueError), models)
    else
      var key := (library, name);
      var cache := if key in models then models else models[key := Model(library, name, device)];
      (Ok(cache[key]), cache)
  }

  /** Asking again, with any device, returns the same model and leaves the cache alone. */
  lemma LookupIsCached(models: map<(string, string), Model>, library: string, name: string, d1: Option<string>, d2: Option<string>)
    ensures var (first, cache) := Lookup(models, library, name, d1);
      Lookup(cache, library, name, d2) == (first, cache)
  {
  }

  class ModelManager {
    var models: map<(string, string), Model>

    /** Every cached model was loaded from the library and under the name of its key. */
    ghost predicate Valid()
      reads this
    {
      forall key :: key in models ==> models[key].library == key.0 && models[key].name == key.1 && key.0 in LoaderLibraries
    }

    constructor ()
      ensures Valid() && models == map[]
    {
      models := map[];
    }

    /** `ModelManager.get(library, model_name, device)`. */
    method Get(library: string, name: string, device: Option<string>) returns (r: Result<Model>)
      requires Valid()
      modifies this
      ensures Valid()
      ensures (r, models) == Lookup(old(models), library, name, device)
    {
      if library !in LoaderLibraries {
        return Err(ValueError);
      }
      var key := (library, name);
      if key !in models {
        models := models[key := Model(library, name, device)];
      }
      r := Ok(models[key]);
    }
  }
}
