# stlr timing pipeline, modelled in Dafny

stlr turns speech into text: an audio clip becomes a timed transcript, a Ren'Py say statement and
an ATL script that animates a talking sprite. The Dafny model covers the timing core, not the
audio or the GUI:

- **Timed words** (`Transcribe`). A transcript is a sequence of `WordTiming`s, each a word with
  its start, end and probability. Its derived values are its start, duration, confidence, words,
  its pauses ("waits") and its text. `get_segments` splits it into runs at its long pauses, and
  `get_fragment` picks out the words of a diff block. The cue-file row mappings come with the
  rows that the exporters write.
- **Reconciliation** (`Hoshi`, `Models`). Whisper gives good words with unusable timings; vosk
  gives usable timings with worse words. The two are merged:
  - word for word, when their counts agree;
  - otherwise by a fallback: vosk alone, the naive single segment, or the assistant.
  - The assistant walks the rows a user edited, consuming two shared iterators. The class
    `Streams.Stream` models a Python iterator, including the order in which `zip` pulls from
    its arguments.
  - `ModelManager` is a cache of loaded models.
- **ATL writers**. There are two revisions, kept apart as in the source:
  - `Vn` models stlr/vn.py. Its class `ATLImageGenerator` keeps one persistent open/closed image
    cycle, and its annotation windows are closed.
  - `Astral` models astral.py. Its free functions start a fresh image cycle per call, and their
    annotation windows are half-open.
  - Both write one image line and one delay line per frame, annotate each delay with the word
    boundaries that fall in it, re-annotate edited scripts, stop once the running time reaches
    the transcript's length, and pad with frames otherwise.
- **Helpers**:
  - `Utils`: `frange` and `truncate_path` from stlr/utils.py. It also defines `pairwise`, and
    the delay-line pattern `(\s*)([0-9]*\.?[0-9]+)` with `read_leading_float` and
    `get_space_prefix` built on it, which stlr/vn.py imports from stlr/utils.py but which that
    file does not define.
  - `Vn`: `wait_tag` and `renpyify`.
  - `Impatient`: `remove_waits`, the regular-expression substitution that deletes wait tags.
  - `Config`: the attrs validators and defaults of the settings records.
- **Support modules**:
  - `Wrappers`: `Option`, `Result` and the Python exceptions raised.
  - `Text`: `str.split`, `join`, `strip` and `splitlines`.
  - `Format`: number formatting, left uninterpreted.
  - `Boundaries`: annotation entries and the stable sort by time that `sorted` and `list.sort`
    perform.

Times are `real`. Number formatting (`:.2f`, `:.3f`, `round`, `str` of a float, `repr`) is a
value of type `Format.Formats` that every operation receives. A property that depends on
formatting states its assumption explicitly, for example "the step is written as a decimal that
reads back as itself".

## Model

| member | source | states |
|---|---|---|
| Utils.FRangeArgs | stlr/utils.py:9-17 | Without `stop`, the range runs from 0.0 up to the given start; without `step`, the step is 1.0; given arguments are kept |
| Utils.FRangeSeq | stlr/utils.py:19-28 | The values are as many as the loop yields, and value k is `start + k*step` |
| Utils.FRangeSeqValues | stlr/utils.py:19-28 | Every yielded value is `start + k*step`. It is below `stop` for a positive step and above it for a negative step. The first value not yielded is at or past `stop`. A start already at or past `stop` yields nothing |
| Utils.FRangeBeforeAll | stlr/utils.py:22-26 | The n-th value is yielded if and only if n is below the count, so the loop stops at the first value on the far side of `stop` |
| Utils.FRange | stlr/utils.py:7-28 | The counting loop, with its two break conditions, yields exactly those values for any non-zero step |
| Utils.TruncatePath | stlr/utils.py:31-35 | For a literal `highest_parent`: ValueError exactly when it occurs nowhere in the path. Otherwise the result is the text from its first occurrence to the end of that line, before `Path` normalises it; it starts with `highest_parent`, and for a path without a line break it is a suffix of the path. astral.py:98-102 holds the same function |
| Utils.Pairwise | stlr/transcribe.py:157 | `pairwise` gives the consecutive pairs `(s[i], s[i+1])`, one fewer than the items, and none for an empty input |
| Utils.MatchDelayAnchored | astral.py:176 | `re.match` is anchored: a match is the line's leading whitespace followed by a non-empty number, and the two together are a prefix of the line |
| Utils.MatchDelayIsLongest | astral.py:188 | A match of the delay pattern is the leading whitespace followed by the longest decimal the pattern can take there |
| Utils.MatchDelayNone | astral.py:176 | There is no match exactly when the first character after the leading whitespace is neither a digit nor a '.' followed by a digit |
| Utils.MatchDelayDecimal | astral.py:176 | The matched number is entirely of the form `[0-9]*\.?[0-9]+` |
| Utils.LeadingFloat | astral.py:176-177 | A line carries a delay if and only if the pattern matches it, and the delay is never negative |
| Utils.SpacePrefix | astral.py:188-189 | The prefix is a prefix of the line, made only of whitespace, and it is followed by a character that is not whitespace |
| Utils.MatchDelayOf | astral.py:188-190 | For a line made of whitespace, a decimal, and a character that cannot extend the decimal: the match is that whitespace and that decimal, and the delay is the decimal's value |
| Utils.MatchDelayOfValue | astral.py:188-190 | A line whose number is written as a decimal that reads back as x carries the delay x |
| Utils.NoDelay | astral.py:176 | A line whose first non-space character is neither a digit nor a '.' carries no delay (an image line, a comment) |
| Utils.TotalDelay | astral.py:172-179 | The summed delay of the lines is never negative |
| Utils.TotalDelayNonNegative | astral.py:172-179 | The summed delay is 0 when no line carries a delay |
| Utils.TotalDelayConcat | astral.py:172-179 | The summed delay of two concatenated texts is the sum of their summed delays |
| Utils.TotalDelayAppend | astral.py:175-177 | One more line adds exactly its own delay |
| Streams.ZipAheadGroups | stlr/hoshi.py:104-106 | One group per segment, and no group larger than its segment's word count |
| Streams.ZipAheadGroupAt | stlr/hoshi.py:104-106 | Group k is the first `counts[k]` items of whatever the earlier groups left on the shared iterator |
| Streams.ZipAheadLeftIsSuffix | stlr/hoshi.py:104-106 | Each group consumes its count plus one item, so what is left is the suffix past the sum of the counts plus the number of groups |
| Streams.ZipAheadAtMost | stlr/hoshi.py:104-106 | The groups and the leftover never hold more items than the iterator had |
| Streams.ZipAheadLoses | stlr/hoshi.py:106 | When a group runs out of its own items while the iterator still has some, one item is lost from groups and leftover together |
| Streams.InOrderIsPrefix | stlr/hoshi.py:106 | With `zip(list, iterator)`, the groups hand the items out front to back, as one prefix whose length is the total of the counts |
| Streams.InOrderLeftIsSuffix | stlr/hoshi.py:106 | With `zip(list, iterator)`, what is left is everything past the total of the counts |
| Streams.InOrderGroupSizes | stlr/hoshi.py:106 | With items enough for every count, each in-order group has exactly its count of items |
| Streams.Stream.constructor | stlr/hoshi.py:64-65 | `iter(items)` starts at the first item |
| Streams.Stream.Next | stlr/models.py:95 | `next(it, None)` gives the next item and advances by one, or gives None once the iterator is exhausted |
| Streams.Stream.Take | stlr/hoshi.py:75 | `islice(it, n)` takes up to n items and consumes exactly the items it returns |
| Streams.Stream.ZipAhead | stlr/hoshi.py:106 | `zip(it, xs)` returns the first n items but consumes one more whenever one remains, because `it` is asked before `xs` |
| Streams.Stream.ZipBehind | stlr/hoshi.py:86 | `zip(xs, it)` returns up to n items and consumes exactly those |
| Transcribe.SegmentStart | stlr/transcribe.py:26-28 | A segment starts at the least start of its words; an empty segment raises ValueError |
| Transcribe.SegmentEnd | stlr/transcribe.py:30-32 | A segment ends at the greatest end of its words; an empty segment raises ValueError |
| Transcribe.SegmentDuration | stlr/transcribe.py:34-36 | Duration is end minus start, and never negative when each word ends no earlier than it starts |
| Transcribe.SegmentStr | stlr/transcribe.py:41-42 | The text of a segment splits back into its stripped words, when each stripped word is free of whitespace |
| Transcribe.Start | stlr/transcribe.py:121-124 | The start of the first word; IndexError exactly when the transcript is empty |
| Transcribe.Duration | stlr/transcribe.py:126-129 | The end of the last word; IndexError exactly when the transcript is empty |
| Transcribe.MinConfidence | stlr/transcribe.py:136-138 | The least word probability, a missing one counting as 0.0; ValueError when the transcript is empty |
| Transcribe.Confidence | stlr/transcribe.py:131-134 | The mean probability lies between the least and the greatest probability, and within [0, 1] when every probability does; ZeroDivisionError when the transcript is empty |
| Transcribe.MeanBetween | stlr/transcribe.py:134 | The mean of a non-empty list of reals lies between its least and its greatest item |
| Transcribe.StrIsSegmentStr | stlr/transcribe.py:146-147 | The text of a transcript is the text of one segment holding all of its words |
| Transcribe.Str | stlr/transcribe.py:146-147 | The text splits back into `words`, when each stripped word is free of whitespace |
| Transcribe.Words | stlr/transcribe.py:176-178 | One stripped word text per timing, in transcript order |
| Transcribe.WaitsOf | stlr/transcribe.py:180-190 | Waits are empty for fewer than two words. Otherwise there is one wait per word: the first n-1 are the gap from that word's end to the next word's start, and the last is 0 |
| Transcribe.Waits | stlr/transcribe.py:180-190 | The loop over `pairwise` computes exactly those waits |
| Transcribe.GetSegments | stlr/transcribe.py:149-165 | Fewer than two words give one segment holding them all, so an empty transcript gives one empty segment. In every case the segments' words, concatenated, are the transcript in order, and the last segment waits 0. For a non-empty transcript, each segment is a non-empty run with no gap above the tolerance, and each closed segment records the gap after it, which exceeds the tolerance |
| Transcribe.GetFragment | stlr/transcribe.py:167-174 | StopIteration exactly when there is no diff block. Otherwise the words from the length of the first block's head, as many as its matched run, clamped like a Python slice, waiting 0 |
| Transcribe.FragmentIsMatch | stlr/transcribe.py:167-174 | When the first block lines up with the words, the fragment holds exactly the matched words and its text is their join |
| Transcribe.FromAuditionCue | stlr/transcribe.py:62-74 | One word per row: its description, from its start for its duration, with no probability |
| Transcribe.FromAudacityCue | stlr/transcribe.py:76-88 | One word per row: its comment, from its start to its end, with no probability |
| Transcribe.AudacityRows | stlr/transcribe.py:210-221 | One row per word, before the times are formatted; `AudacityRoundTrip` states what the rows hold |
| Transcribe.AuditionRows | stlr/transcribe.py:223-234 | One row per word, given one marker name per word, before the times are formatted; `AuditionRoundTrip` states what the rows hold |
| Transcribe.AudacityRoundTrip | stlr/transcribe.py:210-221 | `from_audacity_cue`'s row mapping (lines 76-88) inverts the exporter's row mapping: reading back the rows gives the same words and times. The exporter's number formatting is not part of this |
| Transcribe.AuditionRoundTrip | stlr/transcribe.py:223-234 | `from_audition_cue`'s row mapping (lines 62-74) inverts the exporter's row mapping: reading back the rows gives the same words and times. `seconds_to_hms` is not part of this |
| Boundaries.SortByTimeIsStable | astral.py:124 | The sort by time is stable: the result is ordered by time, holds the same entries, and keeps the entries of any one time in their original order |
| Boundaries.EndsBeforeStarts | stlr/vn.py:52-53 | Sorting end entries followed by start entries puts, at every time, that time's ends before its starts |
| Boundaries.InsertSorted | stlr/vn.py:53 | Inserting an entry into a time-sorted list keeps it sorted |
| Boundaries.SortElements | stlr/vn.py:53 | The sort is a permutation of its input |
| Vn.WaitTag | stlr/vn.py:8-12 | Empty exactly when the pause rounds to 0; otherwise `{w=` and the rounded pause, then `}` |
| Vn.SayPieces | stlr/vn.py:17-21 | One piece per pair of `zip(words, waits)`: the word followed by the tag of its wait |
| Vn.Renpyify | stlr/vn.py:15-21 | A transcript of fewer than two words renders as nothing, because its waits are empty |
| Vn.RenpyifyLastWord | stlr/vn.py:8-21 | The last word is followed by no tag, as its wait is 0 |
| Vn.EndEvents | stlr/vn.py:44 | At most one end entry per word |
| Vn.StartEvents | stlr/vn.py:52 | At most one start entry per word |
| Vn.EndEventsAre | stlr/vn.py:44 | Every end entry is the end of a word that ends in the closed window `[start, end]`, recorded at that end; `EndEventsComplete` gives the converse |
| Vn.EndEventsComplete | stlr/vn.py:44 | Every word that ends in the closed window has its end entry |
| Vn.StartEventsAre | stlr/vn.py:52 | Every start entry is the start of a word that starts in the closed window, recorded at that start; `StartEventsComplete` gives the converse |
| Vn.StartEventsComplete | stlr/vn.py:52 | Every word that starts in the closed window has its start entry |
| Vn.ImageLineDelay | stlr/vn.py:70 | An image line carries no delay |
| Vn.DelayBeforeComment | stlr/vn.py:73 | A delay line written as whitespace, a number that reads back as x, and a comment carries the delay x |
| Vn.HeaderNoDelay | stlr/vn.py:82-86 | The header lines carry no delay |
| Vn.FramesReach | stlr/vn.py:69 | For a positive step, as many steps as `frange` yields values add up to at least the duration |
| Vn.ReadCountIs | stlr/vn.py:131-145 | The pass breaks exactly when some delay line brings the running time to the duration, and then right after the first such line; otherwise it reads every line |
| Vn.ReachesStep | stlr/vn.py:132-143 | A line reaches the duration exactly when it has a delay that brings the running time to the duration |
| Vn.ATLImageGenerator.constructor | stlr/vn.py:25-31 | The fields are the arguments, the cycle gives the open mouth first, and `_atl` is empty |
| Vn.ATLImageGenerator.TakeImage | stlr/vn.py:30 | `next(self._images)` gives the cycle's next image and flips the cycle, leaving `_atl` alone |
| Vn.ATLImageGenerator.Annotate | stlr/vn.py:43-58 | An annotation is empty or a comment starting with "  #", and a verbose one is never empty |
| Vn.ATLImageGenerator.TerseWords | stlr/vn.py:44-49 | The terse annotation is empty exactly when no word ends in `[start, end]`. Otherwise it is "  # " followed by the ending words joined by ", ", sorted stably by end time |
| Vn.ATLImageGenerator.VerboseEntries | stlr/vn.py:52-58 | The verbose entries are all ends and starts in the window, as a permutation sorted by time. At any one time the ends come first, then the starts, each in transcript order |
| Vn.ATLImageGenerator.FramesEndClosed | stlr/vn.py:76-79 | With distinct mouth images, after a call that wrote at least one frame with `ensure_close`, the last image shown is the closed mouth and the cycle's next image is the open mouth |
| Vn.ATLImageGenerator.FramesCover | stlr/vn.py:60-74 | For a positive step that reads back exactly, the frames' delays add up to one step per frame, which reaches the duration |
| Vn.ATLImageGenerator.DelayLineDelay | stlr/vn.py:73 | A delay line carries its step, when the step reads back exactly |
| Vn.ATLImageGenerator.FrameLinesTotal | stlr/vn.py:69-74 | The delays of the frames add up to the number of frames times the step |
| Vn.ATLImageGenerator.CycleFrames | stlr/vn.py:69-74 | The loop writes two lines per time with the cycle's successive images, binds the last image (none without frames), and advances the cycle once per frame |
| Vn.ATLImageGenerator.AlternateFramesForDuration | stlr/vn.py:60-79 | The frames for `frange(start, start+duration, step)`, continuing the persistent cycle, then the closing image when asked |
| Vn.ATLImageGenerator.FramesAt | stlr/vn.py:69-79 | The frame loop followed by the `ensure_close` step, for any list of times |
| Vn.ATLImageGenerator.CloseFrames | stlr/vn.py:76-77 | The cycle's next image is appended exactly when closing is asked and the last frame was not the closed mouth |
| Vn.ATLImageGenerator.GenerateAtl | stlr/vn.py:81-96 | IndexError on an empty transcript, with nothing changed. Otherwise the header, then frames from 0 over the transcript's duration at 0.2; the text is stored in `_atl` and returned |
| Vn.ATLImageGenerator.Duration | stlr/vn.py:38-41 | The animation's length is never negative |
| Vn.ATLImageGenerator.AtlHeaderDelay | stlr/vn.py:82-86 | The header of `generate_atl` carries no delay |
| Vn.ATLImageGenerator.AtlCoversTranscript | stlr/vn.py:81-96 | The animation `generate_atl` writes lasts at least as long as the transcript, when 0.2 reads back exactly |
| Vn.ATLImageGenerator.SmartStep | stlr/vn.py:103 | There is no frame length (the division fails) exactly when the word's duration over 0.2 rounds to 0; otherwise the frame length is non-zero |
| Vn.ATLImageGenerator.Block | stlr/vn.py:98-109 | ZeroDivisionError exactly when the frame count rounds to 0, with the cycle untouched; otherwise frames over the word's own span, closed at the end |
| Vn.ATLImageGenerator.SmartBlock | stlr/vn.py:98-109 | `_generate_smart_block` writes exactly that block and moves the cycle as it says |
| Vn.ATLImageGenerator.SmartBlocksOutcome | stlr/vn.py:120-123 | The blocks fail exactly when some word of the zipped pairs has a frame count that rounds to 0, and then with ZeroDivisionError; a success keeps everything written before them |
| Vn.ATLImageGenerator.SmartBlocksFailAt | stlr/vn.py:103-121 | A failure comes only from a word whose frame count rounds to 0 |
| Vn.ATLImageGenerator.SmartBlocksFail | stlr/vn.py:103-121 | Any such word makes the blocks fail |
| Vn.ATLImageGenerator.NextBlock | stlr/vn.py:120-123 | One turn of the loop: the word's block, then its pause line, or the failure |
| Vn.ATLImageGenerator.WriteSmartBlocks | stlr/vn.py:120-123 | The loop over `zip(words, waits)` appends each word's block and pause line |
| Vn.ATLImageGenerator.GenerateSmartAtl | stlr/vn.py:111-125 | IndexError on an empty transcript. Otherwise the five header lines then the blocks, or the first ZeroDivisionError, after which the cycle stays moved. `_atl` is left unchanged |
| Vn.ATLImageGenerator.RewriteLineDelay | stlr/vn.py:137-139 | A rewritten delay line keeps its whitespace prefix and, when the pause reads back exactly, its delay |
| Vn.ATLImageGenerator.ReannotatedLinesNext | stlr/vn.py:131-141 | Each line read is written at the running time that the delays before it add up to |
| Vn.ATLImageGenerator.ReannotatedLineKeeps | stlr/vn.py:132-139 | A line without a delay is passed through unchanged; a delay line keeps its prefix and its delay |
| Vn.ATLImageGenerator.PassStep | stlr/vn.py:132-145 | One turn writes the line, adds its delay to the time, and breaks exactly when the line reaches the duration |
| Vn.ATLImageGenerator.PassOver | stlr/vn.py:130-145 | The loop writes every line it reads, reaches the sum of their delays, and breaks right after the first line that reaches the duration |
| Vn.ATLImageGenerator.TailFrames | stlr/vn.py:146-154 | Frames for the remaining time are appended only when the pass did not break and time remains |
| Vn.ATLImageGenerator.Reannotate | stlr/vn.py:127-156 | IndexError on an empty transcript, with nothing changed. Otherwise the lines the pass wrote, cut after the first line that reaches the duration, then the padding frames |
| Hoshi.SegmentCounts | stlr/hoshi.py:105 | The word count of each whisper segment's text |
| Hoshi.ReconcileEqualSimple | stlr/hoshi.py:99-108 | The result is vosk's timings as the shared zip-ahead iterator hands them to successive segments, so one timing is dropped after each segment whose words run out |
| Hoshi.EqualSimpleLosesTimings | stlr/hoshi.py:106 | A first segment with fewer words than there are timings makes the result shorter than vosk's output |
| Hoshi.EqualSimpleExample | stlr/hoshi.py:106 | Two segments of two words and timings v0..v3 give `[v0, v1, v3]` |
| Hoshi.ReconcileEqualPositional | stlr/hoshi.py:99-108 | With `zip(words, iterator)`, each segment takes as many timings as it has words and none is dropped |
| Hoshi.PositionalKeepsAllTimings | stlr/hoshi.py:99-108 | When the segments hold as many words as vosk has timings, the corrected path returns every timing, in order |
| Hoshi.IterRows | stlr/hoshi.py:57-60 | `zip` of the three columns: one row per position, as many as the shortest column holds, each row holding that position's three entries |
| Hoshi.IterRowsSurplus | stlr/hoshi.py:57-60 | Entries past the end of the shortest column never reach a row: cutting every column to that length gives the same rows |
| Hoshi.SlashPieces | stlr/hoshi.py:70-71 | One piece more than there are slashes, none holding a slash |
| Hoshi.SlashPiecesJoin | stlr/hoshi.py:70-71 | The pieces joined back with slashes are the phrase |
| Hoshi.EmptyPhrase | stlr/hoshi.py:70-79 | An empty phrase is one piece with no words |
| Hoshi.MatchRun | stlr/hoshi.py:84-87 | As many words as the phrase has tokens and both iterators have items, and exactly that many timings are consumed |
| Hoshi.OneGroup | stlr/hoshi.py:74-82 | Each sub-group takes `n_whisper` text words. With no vosk words it emits nothing and takes no timing. Otherwise it takes `n_vosk` timings and emits one word: the taken text, from the first taken start to the last taken end. IndexError exactly when timings are needed and none remain |
| Hoshi.Disagreement | stlr/hoshi.py:67-82 | Any failure is IndexError; the pairing of the sub-groups up to the shorter side is the function's definition, and `DisagreementPairsShorter` states it |
| Hoshi.DisagreementPairsShorter | stlr/hoshi.py:73 | `zip` stops at the shorter side: the pieces past it on the longer side consume nothing and change nothing |
| Hoshi.DisagreementSize | stlr/hoshi.py:73-82 | A disagreement emits at most one word per pair of sub-groups |
| Hoshi.MatchRunShape | stlr/hoshi.py:84-87 | The matching run pairs the k-th text word with the k-th timing, as often as the phrase has tokens and both iterators have items. It consumes the timings it pairs, plus one text word when the timings are what runs out |
| Hoshi.RowsAppend | stlr/hoshi.py:89-91 | Rows are processed in order: a failure stops the rest, and a success is followed by the words of the remaining rows |
| Hoshi.AgreeingRowStep | stlr/hoshi.py:84-91 | A row with no disagreement pairs the next n text words with the next n timings, n being its phrase's word count |
| Hoshi.AgreeingRowsPair | stlr/hoshi.py:62-91 | When every row agrees and the matching phrases hold exactly as many words as there are text words and timings, the result pairs them positionally |
| Hoshi.ReconcileGroup | stlr/hoshi.py:74-82 | One sub-group over the two shared iterators does exactly what `OneGroup` says to both |
| Hoshi.ReconcileOne | stlr/hoshi.py:67-82 | `_reconcile_one` over the two shared iterators: the sub-groups' words, with any failure being IndexError |
| Hoshi.ReconcileMatching | stlr/hoshi.py:84-87 | `_reconcile_matching` over the two shared iterators is the matching run |
| Hoshi.ReconcileAssisted | stlr/hoshi.py:62-91 | The assistant's loop over the rows `_iter_rows` makes of its columns, on fresh iterators over whisper's words and vosk's timings, gives the row-by-row result |
| Hoshi.AssistedSurplusIgnored | stlr/hoshi.py:57-60 | An entry added to the whisper column past the end of a shorter column leaves the assisted result unchanged |
| Hoshi.ReconcilePath | stlr/hoshi.py:122-139 | The equal path exactly when the counts agree and the mode is not "always-assisted"; otherwise the simple fallback exactly when the mode is "simple"; otherwise the assistant |
| Hoshi.Reconcile | stlr/hoshi.py:111-139 | Each path gives its own result; the simple fallback returns vosk's timings unchanged |
| Hoshi.ReconcileCorrected | stlr/hoshi.py:122-139 | The same dispatch with the positional equal path: off the equal path it agrees with `reconcile`, and on it, with matching counts, it returns every timing in order |
| Models.MatchedSegments | stlr/models.py:86-93 | Each segment keeps its times and text. Its words become what the shared zip-ahead iterator hands it: at most its word count, one timing dropped after each segment |
| Models.MatchingAssertFails | stlr/models.py:95 | The exhaustion assert fails exactly when vosk has more timings than the segments' words plus the one timing each segment drops |
| Models.MatchingLossUndetected | stlr/models.py:93-95 | When the segments' words number as many as vosk's timings, the assert passes, and a first segment shorter than the whole still leaves timings unassigned |
| Models.MatchingLosesTimings | stlr/models.py:93 | A first segment with fewer words than there are timings leaves the segments holding fewer timings than vosk produced |
| Models.MatchingExample | stlr/models.py:93-95 | Two segments of two words and four timings: the second segment gets only the fourth timing, and the assert passes |
| Models.MatchedSegmentsAre | stlr/models.py:92-93 | Segments that agree one by one with the matched segments are the matched segments |
| Models.MatchSegment | stlr/models.py:93 | One turn overwrites one segment's words with the iterator's next group and leaves the other segments alone |
| Models.ReconcileMatching | stlr/models.py:85-97 | Every segment's words are overwritten in place, then AssertionError exactly when the iterator is not exhausted; the segments stay overwritten either way |
| Models.MatchedSegmentsCorrected | stlr/models.py:86-93 | With `zip(words, iterator)`, each segment keeps its times and text and takes in order as many timings as it has words |
| Models.CorrectedMatchingAssignsAll | stlr/models.py:86-95 | When the counts agree, the corrected path gives every segment one timing per word, hands out all the timings in order, and leaves the iterator exhausted |
| Models.Naive | stlr/models.py:103-116 | ValueError exactly when vosk is empty. Otherwise one segment spanning vosk's earliest start to its latest end, holding vosk's words; the language defaults to "en" |
| Models.NaiveTextSplits | stlr/models.py:111 | When each of vosk's words is free of whitespace, the naive text splits back into vosk's words |
| Models.Unmatching | stlr/models.py:99-122 | The naive result under "naive" or "naïve"; otherwise what the assistant left |
| Models.ValidatedConfigIsNeverNaive | stlr/models.py:103 | Under a validated configuration, the naive branch never runs |
| Models.Reconcile | stlr/models.py:70-83 | The matching path, in place, exactly when the text and vosk hold the same number of words; otherwise the unmatching path, with the segments untouched |
| Models.ReconcileCorrected | stlr/models.py:70-97 | With the corrected matching path, every timing goes, in order, to the segments whose words it times |
| Models.ConfiguredLibraryLoads | stlr/models.py:147-153 | A library that the configuration accepts is one that the manager can load from |
| Models.Lookup | stlr/models.py:146-161 | An unknown library raises ValueError and leaves the cache alone. A cached key returns its model whatever the device. A new key is loaded with the given device and added. No other entry changes |
| Models.LookupIsCached | stlr/models.py:156-161 | Asking again, with any device, returns the same model and leaves the cache unchanged |
| Models.ModelManager.constructor | stlr/models.py:143-144 | The cache starts empty |
| Models.ModelManager.Get | stlr/models.py:146-161 | `get` returns what `Lookup` says and updates the cache as it says |
| Config.MakeWhisperModel | stlr/config.py:15-30 | Valid exactly when the name is one of the ten models and the library (default "openai-whisper") is one of the three; otherwise ValueError |
| Config.MakeEtoileSettings | stlr/config.py:33-40 | Valid exactly when the export format (default "json") is json, audacity or audition; otherwise ValueError |
| Config.MakeHoshiSettings | stlr/config.py:43-50 | Valid exactly when the reconciliation mode (default "assisted") is simple, assisted or always-assisted; otherwise ValueError |
| Config.ValidatedModeIsNotNaive | stlr/config.py:43-50 | A validated reconciliation mode is never "naive" or "naïve" |
| Config.MakeUIThemes | stlr/config.py:66-80 | Valid exactly when all three themes are listed ones; otherwise ValueError |
| Config.IndentError | stlr/config.py:60-61 | No error exactly for an int of at least 0; TypeError for a non-int, a bool counting as an int |
| Config.FrameLengthError | stlr/config.py:63 | No error exactly for a positive float; TypeError for anything that is not a float, ints included |
| Config.MakeAstralSettings | stlr/config.py:58-63 | Fields are validated in declaration order, the first failure deciding the exception. Each later field's failure decides the exception once the earlier fields are valid. A valid record holds the given or default values: indents of at least 0, an alignment of fixed or word, and a positive frame length |
| Config.DefaultsAreValid | stlr/config.py:28-63 | Every record with defaults is valid with all of them: indents 4, "fixed", 0.2, "assisted", "json", "openai-whisper" |
| Config.WhisperSplit | stlr/config.py:98-102 | KeyError exactly when model, device or library is missing. The kept settings are the original entries less those popped; after a successful split, they are the settings less the three keys |
| Config.Settings.Pop | stlr/config.py:99 | `dict.pop` returns and removes the value, or raises KeyError and leaves the dictionary alone |
| Config.SplitWhisperSettings | stlr/config.py:98-102 | The pops on the settings dictionary in place give the split's model and leave its kept settings |
| Astral.EndsInAre | astral.py:108-110 | The end entries are exactly the words that end in the half-open window `[start, end)`: each entry is such a word's end, every such word has its entry, and there are none exactly when no word ends there |
| Astral.StartsInAre | astral.py:107-110 | The start entries as written are the words that start in the half-open window, each recorded at the word's end |
| Astral.EndsIn | astral.py:108 | At most one end entry per word |
| Astral.StartsIn | astral.py:107 | At most one start entry per word |
| Astral.WordBoundariesInRange | astral.py:105-110 | All end entries, then all start entries |
| Astral.StartEntryOutsideWindow | astral.py:110 | A word from 0.1 to 0.5 seen in the window [0, 0.2) gets a start entry recorded at 0.5, outside the window |
| Astral.IntendedBoundaries | astral.py:105-110 | The boundaries with every start entry recorded at the word's start |
| Astral.IntendedBoundariesInWindow | astral.py:105-110 | Every corrected entry is recorded inside `[start, end)`, and every word that ends or starts there has its entry |
| Astral.CreateAnnotation | astral.py:113-128 | The annotation is empty or a comment, and a verbose one is never empty |
| Astral.TerseAnnotation | astral.py:116-119 | Empty exactly when no word ends in the window; otherwise "  # " and the ending words, in transcript order, joined by single spaces |
| Astral.VerboseEntries | astral.py:122-128 | The verbose entries are the window's entries as a permutation sorted by time. At any one time the end entries come before the start entries, each in transcript order |
| Astral.AnnotateComments | astral.py:113-128 | Every annotation of every window is empty or a comment |
| Astral.FramesOfImages | astral.py:137-147 | Frames alternate the open and closed image, starting from the open one, two lines a frame. The last frame shows the image left bound. With no times there are no frames and the image is never bound |
| Astral.FRangeEmpty | astral.py:140 | For a positive step, the range is empty exactly when the duration is not positive |
| Astral.FramesForImages | astral.py:131-147 | A fresh cycle gives the frames `arange` times, alternating open and closed. UnboundLocalError exactly when the range is empty |
| Astral.FramesForShape | astral.py:140-145 | The k-th delay line annotates `[start + k*step, start + (k+1)*step)` |
| Astral.DelayLineDelay | astral.py:144 | A delay line carries its step, when the step reads back exactly |
| Astral.FrameLinesTotal | astral.py:140-145 | The delays of the frames add up to the frame count times the step |
| Astral.FramesCover | astral.py:131-147 | For a positive step that reads back exactly, the frames last at least the requested duration |
| Astral.FrameTurn | astral.py:140-145 | One turn takes the cycle's next image and writes the image line and the delay line |
| Astral.FramesAt | astral.py:137-147 | The frame loop over any list of times |
| Astral.FramesForDuration | astral.py:131-147 | The frame loop over the `arange` times |
| Astral.AlternateFramesForDuration | astral.py:131-147 | `alternate_frames_for_duration` with `create_annotation` as the annotations |
| Astral.AlternateFrames | astral.py:150-169 | `alternate_frames` joins its lines with line breaks, or fails with their error |
| Astral.AlternateFramesOutcome | astral.py:150-169 | IndexError exactly on an empty transcript, and UnboundLocalError exactly on an empty frame range; for a positive step the latter means the transcript ends at 0 or before |
| Astral.AlternateFramesStart | astral.py:151-163 | Three header lines come first, then the first frame, which shows the open image |
| Astral.AlternateFramesEndsClosed | astral.py:163-167 | The text ends showing the closed image. The closed image is appended exactly when the last frame was not the closed image, which (when the images differ) is when the frame count is odd |
| Astral.HeaderNoDelay | astral.py:151-155 | The header lines carry no delay |
| Astral.AlternateFramesCover | astral.py:150-169 | The animation lasts at least as long as the transcript, for a positive step that reads back exactly |
| Astral.AlternateFramesReadBack | astral.py:150-179 | What `get_animation_duration` reads back from the written text also covers the transcript |
| Astral.GetAnimationDuration | astral.py:172-179 | The loop sums the leading decimals of the lines, other lines adding 0, so the sum is never negative |
| Astral.UpdatedLinesAt | astral.py:187-195 | Line k of the output is line k rewritten at the running time that the pauses before it add up to |
| Astral.UpdatedLineKeeps | astral.py:188-202 | A line without a pause is copied. A line with a pause keeps its leading whitespace and, when the pause reads back exactly, its pause |
| Astral.UpdatedLinesTotal | astral.py:187-195 | The rewritten lines keep the running time of the lines they came from |
| Astral.UpdateStep | astral.py:188-199 | One turn writes the line, adds its pause to the time, and breaks exactly when the line reaches the duration |
| Astral.UpdatePass | astral.py:187-202 | The loop writes every line it reads, reaches the sum of their pauses, and breaks right after the first line that reaches the duration |
| Astral.PadLines | astral.py:203-217 | The `else` branch computes the padding: verbose frames for the remaining time, then the closed image if the frames did not end on it |
| Astral.UpdateAnnotations | astral.py:182-219 | `update_annotations` joins the lines of the pass and the padding, or fails with their error |
| Astral.RunEndsClosed | astral.py:207-217 | For a positive step and a positive duration, a run of frames never fails and, followed by the closing image, ends showing the closed image |
| Astral.PaddingShape | astral.py:203-217 | Padding is added only when the pass read every line without reaching the duration. For a positive step it then never fails and ends showing the closed image |
| Astral.UpdateAnnotationsOutcome | astral.py:182-219 | For a positive step, the only failure is IndexError on an empty transcript. After a break, the following lines are dropped and nothing is appended |
| Astral.PaddingCover | astral.py:203-217 | For a positive step, the padding lasts at least the time that remains |
| Astral.UpdateAnnotationsCover | astral.py:182-219 | The updated animation lasts at least as long as the transcript, for a positive step and pauses that read back exactly |
| Impatient.TagLengthIs | impatient.py:8 | A match at the front is the shortest prefix of the form `{w=`, at least one character that is not a line break, then `}`: the lazy `.+?` stops at the first `}` after the first character. None exactly when no such prefix exists |
| Impatient.TagLength | impatient.py:8 | A match at the front of the text starts with `{w=` and is at least five characters long, within the text |
| Impatient.RemoveWaits | impatient.py:7-9 | The substitution never makes the text longer |
| Impatient.CleanUnchanged | impatient.py:8 | A text with no `{w=` comes back unchanged |
| Impatient.BareTagSurvives | impatient.py:8 | `{w=}` and a `{w=` whose `}` is on the next line are left alone |
| Impatient.TagsDeleted | impatient.py:8 | `a{w=0.5}b` becomes `ab`, and in `{w=}}` the tag reaches to the second brace |
| Impatient.SinglePass | impatient.py:8 | Matches are leftmost and do not overlap, in a single pass: `{w{w=1}=2}` becomes `{w=2}`, which a second pass would delete |
| Impatient.PlainPrefix | impatient.py:8 | A prefix in which no tag starts, and which cannot complete one with what follows, is kept as it is |
| Impatient.TagThen | impatient.py:8 | A wait tag as `wait_tag` writes it (stlr/vn.py:8-12), or nothing, is deleted from the front of any text |
| Impatient.WaitTagShape | stlr/vn.py:8-12 | What `wait_tag` writes is nothing or `{w=`, a numeral free of braces and line breaks, then `}` |
| Impatient.RemoveWaitsJoin | impatient.py:8 | Deleting the tags from words, each followed by a tag, joined by spaces, gives the words joined by spaces |
| Impatient.RemoveWaitsRenpyify | impatient.py:8 | `remove_waits` undoes `renpyify`: with no `{w=` in any word, it gives the transcript's words joined by single spaces (nothing for fewer than two words) |

## Left out

- Audio decoding, vosk and whisper inference, the GUI windows (including the assistant's widgets,
  whose rows are an input), file reading and writing, CSV, JSON and YAML parsing, and logging.
- `impatient.main`: the file picker and the `.bak` copies are I/O.
- `Transcription.from_json`, `from_whisper_result`, `from_audio`, `tabulate` and the `export`
  dispatch: loading and writing files. Only the mapping from already-parsed cue rows, and the
  rows the exporters write before formatting, are modelled.
- Number formatting: `:.2f`, `:.3f`, `round`, `str` of a float, `repr` and `seconds_to_hms` are
  uninterpreted values of `Format.Formats`. Float rounding is not modelled. Times and the value of
  a matched decimal are exact reals.
- `diff_blocks` and `diff_block_str` are not part of this model: `Transcribe.GetFragment` receives
  the blocks as input. `arange` is taken to be `frange`.
- The `TranscribedWord` record that stlr/vn.py imports is not part of this model. A word's
  duration is taken as its end minus its start.
- `transcription.confident`, read at stlr/vn.py:84, stlr/vn.py:114 and astral.py:152, is not an
  attribute the transcript defines (it has `confidence` and `min_confidence`), so as written
  those lines would raise AttributeError. The model takes it as a boolean given to
  `Vn.ATLImageGenerator` and to `Astral.Header` and `Astral.AlternateFrames`.
- Transcribe.AuditionRows: the `Marker {i}` names, with i counted from 1 (stlr/transcribe.py:227), are an input, because formatting an int is left uninterpreted.
- Utils.TruncatePath: takes `highest_parent` as a literal string, where stlr/utils.py:32 puts it
  unescaped into a regular expression; every call passes "images", where the two agree. It
  returns the text of the match, where line 33 wraps it in `Path`, which collapses repeated
  separators and drops a trailing one.
- Utils.Pairwise, Utils.LeadingFloat, Utils.SpacePrefix: stlr/utils.py does not define
  `pairwise`, `read_leading_float` or `get_space_prefix`, which stlr/vn.py imports from it. The
  model defines `pairwise` as the consecutive pairs, and the other two from the inline match at
  astral.py:176 and astral.py:188.
- Utils.FRange: excludes a zero step (`requires step != 0.0`), for which the source loop never
  ends; every frame writer inherits this requirement.
- Transcribe.Start, Transcribe.Duration: these follow the code, which raises IndexError on an
  empty transcript; no default of 0.0 is substituted.
- Hoshi.SlashPieces: splits a phrase at each '/' and keeps the whitespace next to it, where
  `re.split(r"\s*/\s*")` removes that whitespace; only the pieces' word counts are used, and
  those are the same.
- Hoshi.MatchRunShape: follows the code in losing one text word when the timings run out in a
  matching run, because `zip` asks the text iterator before the timings.
- Vn.ATLImageGenerator.SmartStep: requires `round(0.0) == 0` of the given rounding, and treats
  the frame count as an integer, without round-half-even.
- Impatient.RemoveWaits: models the one pattern `\{w=.+?\}`, not a general regular-expression
  engine.
- Astral.AnnotateComments and Vn.ATLImageGenerator.Annotate: annotations depend on `repr` of the
  words and on the supplied formatting. Their properties are stated about the entries they list
  and the order of those entries, not about the text of each entry.
- Models.Unmatching: the assisted branch's result is what the assistant leaves, given as an input.

## Findings

| source | as written | input that shows it | evidently intended | confidence | as-written member | corrected member |
|---|---|---|---|---|---|---|
| astral.py:110 | start entries are recorded at `t.end` | a word from 0.1 to 0.5 in the window [0, 0.2) gets a "start" entry at 0.5 | record start entries at `t.start`, inside the window | not executed | Astral.StartEntryOutsideWindow | Astral.IntendedBoundariesInWindow |
| stlr/hoshi.py:106 | `zip(vosk_words, whisper_words)` pulls one more timing from the shared iterator whenever a segment's words run out | segments "a b" and "c d" with timings v0..v3 give `[v0, v1, v3]`: v2 is lost and "d" is timed by v3 | `zip(whisper_words, vosk_words)`, which takes each segment's timings in order and drops none | not executed | Hoshi.EqualSimpleExample | Hoshi.PositionalKeepsAllTimings |
| stlr/models.py:93 | `zip(viter, segment["text"].split())` drops one timing after each segment, so later segments get the wrong timings and the last ones are lost. The assert on line 95 does not catch this: it passes whenever the segments' words number `len(vosk_result)`, the case that reaches this code via line 74 | two segments of two words and four timings: the second segment gets only the fourth timing | `zip(segment["text"].split(), viter)`, which gives every segment one timing per word and exhausts the iterator | not executed | Models.MatchingLossUndetected | Models.CorrectedMatchingAssignsAll |
