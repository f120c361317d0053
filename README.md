# birdbird in Dafny

A model of the core of birdbird, a pipeline that turns a day of motion-triggered clips from a garden bird feeder into a small published page. It has these stages:

- **filter**: keep the clips in which the object detector sees a bird.
- **best clips**: for every species, find the densest window of detections.
- **highlights**: cut the bird segments out of each clip by binary search and join them with crossfades.
- **frames**: score and rank still frames.
- **songs**: parse BirdNET's audio detections into a summary.
- **species**: sample frames for a species classifier run locally or on a remote host, and aggregate its answers.
- **publish**: name the published batches, pick the files to upload and keep `latest.json` and old batches in order.
- **remove_batch**: remove one published batch.
- **paths and config**: the directory layout and the user configuration.

Each Python source file of the core is one Dafny module, plus four shared modules:

- `Prelude`: `Option` and `Result`.
- `Seqs`: sums, minima and maxima, a stable sort by a key, Python slicing.
- `Numbers`: rounding to decimal places, floor and truncation.
- `Text`: digits and zero padding, `strip` over Python's whitespace characters, string order and sorting, splitting.

`Dates` holds the calendar and the date formats that songs and publish share.

What Python does through the outside world is an input of the model:

- opening and reading a video;
- running the YOLO detector and the BioCLIP classifier;
- running ffmpeg, ssh and scp;
- listing a directory and reading a file;
- the clock.

Each of these becomes a parameter: a function from the request to the answer, or the answer itself. A loop that Python writes step by step is a Dafny `method` with its invariants. Its `ensures` ties the result to a function, and lemmas prove about that function what the code promises.

### Where the code and its tests or its evident intent differ

The model follows the code in the first four cases, and not in the last:

- tests/test_highlights_mock.py:35-60 and 187-234 exercise `detect_hardware_encoder`, and an `extract_segment` that tries a hardware encoder and falls back to libx264. Neither exists in src/birdbird/highlights.py: `extract_segment` (highlights.py:179-202) always encodes with libx264, so the model has one extraction command.
- tests/test_highlights_mock.py:253-292 exercise a `concatenate_segments` built on the concat demuxer. The code has no such function. `generate_highlights` tries the crossfade first and falls back to the plain concatenation only when the crossfade fails (`Highlights.ConcatenationOutcome`).
- `find_bird_segments` builds a `Segment(start, end)` from the first and last checkpoints that see a bird, which reads as if the first came no later than the last. For a clip shorter than 1.5 seconds the checkpoint list is not in time order. In a 1.2-second clip, a bird seen at the checkpoints 0.5 s and 0.4 s gives a span from 0.5 back to 0.4 seconds (`Highlights.UnsortedCheckpoints`).
- `find_best_clip_for_species` sorts the detections by timestamp first, which suggests that their input order should not matter. That holds when confidences are positive. Take two detections of one species at the same instant, one with confidence 0. The best window then counts one or two detections, depending on which of them comes first (`BestClips.TiedZeroConfidenceOrderMatters`).
- `frames.py` (line 16), `highlights.py` (line 15) and `publish.py` (line 17) import `load_detections` from the `filter` module, which neither defines nor imports it (filter.py:6-15); it is defined in `paths.py`. As written these three modules fail at import, and so does utilities/remove_batch.py, which imports `birdbird.publish` (line 25). The calls also pass a directory where `paths.load_detections` expects the detections file: `input_dir` at frames.py:178 and highlights.py:358, `has_birds_dir` at publish.py:691. And `paths.load_detections` raises when the file is absent (paths.py:135-155) instead of returning the None that highlights.py:359 tests for. The model follows the evident intent here. Each stage takes the loaded detections as an input, with None in highlights meaning no cache, and `load_detections` is modelled once, in `Paths`, as written.

## Model

| member | source | states |
|---|---|---|
| BestClips.RangeScoreIsSum | src/birdbird/best_clips.py:66-79 | the running score of the window `[i, j)` is the sum of the confidences of that slice |
| BestClips.RangeScoreDropFirst | src/birdbird/best_clips.py:75-77 | moving the left edge past a detection takes exactly its confidence off the running score |
| BestClips.WindowStart | src/birdbird/best_clips.py:71-78 | the left edge of the window ending at detection `e` is at or before `e` and within `w` seconds of it |
| BestClips.WindowStartLeast | src/birdbird/best_clips.py:75-78 | the shrink loop stops at the first position within `w` seconds: no position within `w` seconds comes before the left edge |
| BestClips.WindowStartMonotone | src/birdbird/best_clips.py:64-78 | on a time-sorted list the left edge never moves back as the right edge advances, so the left edge can be kept from one iteration to the next |
| BestClips.BestUpToValid | src/birdbird/best_clips.py:59-84 | the held window is the empty window with score 0, or a window ending at a detection, starting at that window's left edge, with its running score, which is above 0 |
| BestClips.BestUpToOptimal | src/birdbird/best_clips.py:80-84 | no window ending at one of the detections swept so far scores above the held one |
| BestClips.BestUpToEarliest | src/birdbird/best_clips.py:81-84 | the strict `>` keeps the earliest best window: every window ending before it scores strictly less |
| BestClips.BestWindowFacts | src/birdbird/best_clips.py:71-84 | a non-empty chosen window lies inside the list, spans at most `w` seconds and scores the sum of its confidences |
| BestClips.BestOptimalAt | src/birdbird/best_clips.py:67-84 | no window ending at any detection scores above the chosen one |
| BestClips.AdvanceStart | src/birdbird/best_clips.py:72-78 | the inner loop leaves the left edge at the window's left edge and the running score at that window's score |
| BestClips.Sweep | src/birdbird/best_clips.py:58-84 | the sliding-window loop computes the best window of the sorted list, as the three lemmas above characterise it |
| BestClips.FindBestClipForSpecies | src/birdbird/best_clips.py:27-95 | the method computes the best clip of the species from any detection list |
| BestClips.SortedSpeciesSorted | src/birdbird/best_clips.py:55-56 | the species' detections are sorted by timestamp |
| BestClips.SortedSpeciesPermutes | src/birdbird/best_clips.py:46-56 | the sorted list is a permutation of the species' detections |
| BestClips.SpeciesMembers | src/birdbird/best_clips.py:46-50 | the filtered list holds exactly the detections of that species |
| BestClips.FindBestClipNone | src/birdbird/best_clips.py:46-53 | the result is None exactly when no detection has the species |
| BestClips.FindBestClipShape | src/birdbird/best_clips.py:86-95 | the clip names the species, starts at one of its detections, lasts exactly `w` seconds and has a score of at least 0 |
| BestClips.FindBestClipSingle | src/birdbird/best_clips.py:58-95 | a single detection with a positive confidence gives `[t, t + w]`, scored with its rounded confidence and counting 1 |
| BestClips.SpanIsRun | src/birdbird/best_clips.py:55-56 | in a time-sorted list the detections of a time span form one run of consecutive positions |
| BestClips.BestDominates | src/birdbird/best_clips.py:67-84 | with no negative confidence, every run of detections spanning at most `w` seconds scores no more than the chosen window |
| BestClips.SpanBound | src/birdbird/best_clips.py:67-84 | with no negative confidence, the detections of any `w`-second span score no more than the chosen window |
| BestClips.BestNonEmpty | src/birdbird/best_clips.py:80-84 | with positive confidences the chosen window is never the empty one |
| BestClips.BestNotExtendable | src/birdbird/best_clips.py:75-84 | with positive confidences, every detection after the chosen window lies more than `w` seconds after its start |
| BestClips.BestIsExactSpan | src/birdbird/best_clips.py:67-87 | with positive confidences the chosen window is exactly the detections timestamped in `[start, start + w]` |
| BestClips.BestWindowSum | src/birdbird/best_clips.py:69-84 | the score of the chosen window is the sum of its confidences |
| BestClips.WindowIsSpan | src/birdbird/best_clips.py:86-87 | with positive confidences, a detection lies in `[start, start + w]` exactly when it lies inside the chosen window |
| BestClips.BeforeWindow | src/birdbird/best_clips.py:75-78 | a detection before the chosen window lies before its first timestamp |
| BestClips.InWindow | src/birdbird/best_clips.py:86-87 | a detection inside the chosen window of a sorted list lies in `[start, start + w]` |
| BestClips.SpanTransfer | src/birdbird/best_clips.py:46-56 | counting and summing the detections of a span give the same result in the input list as in the filtered and sorted one |
| BestClips.ClipOfOptimal | src/birdbird/best_clips.py:86-95 | with no negative confidence, the clip of a sorted list scores at least the rounded sum of any `w`-second span |
| BestClips.ClipOfExact | src/birdbird/best_clips.py:86-95 | with positive confidences, the clip of a sorted list counts and scores exactly the detections in `[start_s, end_s]` |
| BestClips.SpeciesConfidences | src/birdbird/best_clips.py:46-56 | filtering and sorting keep the confidences of the species' detections, so positivity or non-negativity carries over |
| BestClips.FindBestClipOptimal | src/birdbird/best_clips.py:27-95 | with no negative confidence for the species, no `w`-second window of the input scores above the returned clip |
| BestClips.FindBestClipExact | src/birdbird/best_clips.py:27-95 | with positive confidences, the count and score are those of the species' detections timestamped in `[start_s, end_s]` of the input |
| BestClips.FindBestClipOrderIndependent | src/birdbird/best_clips.py:46-56 | the input order does not matter when same-instant detections of the species are identical |
| BestClips.TiedZeroConfidenceOrderMatters | src/birdbird/best_clips.py:56 | otherwise it can: with a confidence of 0 and a stable sort, two orders of the same detections give counts 1 and 2 |
| BestClips.BestClipsForKeys | src/birdbird/best_clips.py:119-128 | one entry per summary species that has a detection, in key order, holding that species' best clip |
| BestClips.BestClipsForStep | src/birdbird/best_clips.py:122-126 | one loop iteration appends the species' clip exactly when it exists |
| BestClips.FindAllBestClips | src/birdbird/best_clips.py:98-128 | a missing file raises FileNotFoundError; otherwise it returns the clips of the summary's species, with a missing `detections` or `species_summary` read as empty |
| BestClips.SaveBestClips | src/birdbird/best_clips.py:131-157 | the file records the window duration, and a species count equal to the number of clips it lists |
| BestClips.LoadBestClips | src/birdbird/best_clips.py:145-157 | reading the file back gives one clip per entry |
| BestClips.SaveLoadRoundTrip | src/birdbird/best_clips.py:145-157 | saving and reading back gives the same clips, field by field |
| Highlights.StepsHalve | src/birdbird/highlights.py:155-161 | each halving of an interval wider than the precision brings the loop closer to its end, so both searches terminate |
| Highlights.BinarySearchEntry | src/birdbird/highlights.py:165-176 | the loop returns what the entry search, as a function of the detector's answers, returns |
| Highlights.BinarySearchExit | src/birdbird/highlights.py:151-162 | the loop returns what the exit search, as a function of the detector's answers, returns |
| Highlights.EntryFindsArrival | src/birdbird/highlights.py:165-176 | for a bird arriving at `t0` in `(low, high]`, the entry search answers a time in `[t0, t0 + precision)` |
| Highlights.ExitFindsDeparture | src/birdbird/highlights.py:151-162 | for a bird leaving at `t0` in `[low, high)`, the exit search answers a time in `(t0 - precision, t0]` |
| Highlights.EntryAnswersSighting | src/birdbird/highlights.py:165-176 | whatever the detector says, the entry search answers `high` itself or a time inside `(low, high)` at which a bird was seen |
| Highlights.ExitAnswersSighting | src/birdbird/highlights.py:151-162 | whatever the detector says, the exit search answers `low` itself or a time inside `(low, high)` at which a bird was seen |
| Highlights.EntryProbesInside | src/birdbird/highlights.py:165-176 | the entry search only probes strictly inside `(low, high)`: two detectors that agree there give the same answer |
| Highlights.ExitProbesInside | src/birdbird/highlights.py:151-162 | the exit search only probes strictly inside `(low, high)` |
| Highlights.ScanFaultIff | src/birdbird/highlights.py:118-148 | the checkpoint scan fails, and the clip yields no segment, exactly when some checkpoint raises |
| Highlights.ScanNoneIff | src/birdbird/highlights.py:121-129 | the scan sees nothing exactly when every checkpoint shows no bird |
| Highlights.ScanSeenAt | src/birdbird/highlights.py:118-125 | a scan that sees a bird reports the first and the last checkpoint, in list order, showing one, with no sighting before the first or after the last |
| Highlights.ScanFaultStays | src/birdbird/highlights.py:121-125 | a fault at one checkpoint is a fault of the whole scan |
| Highlights.FindBirdSegments | src/birdbird/highlights.py:68-148 | the method returns what the segment function of the clip returns |
| Highlights.BirdSegmentsShape | src/birdbird/highlights.py:90-144 | a clip that does not open or lasts under a second gives no segment; otherwise at most one, on that clip, within `[0, duration]` |
| Highlights.UncachedNothingSeen | src/birdbird/highlights.py:114-148 | without a cached sighting, no bird at any checkpoint, or a raise at one, gives no segment |
| Highlights.UncachedSpanSightings | src/birdbird/highlights.py:114-137 | without a cached sighting, both ends of the span are instants at which a bird was seen, enclosing the checkpoints that saw one |
| Highlights.UncachedVisitFound | src/birdbird/highlights.py:114-137 | a bird present exactly on `[t1, t2]` inside the clip and caught by a checkpoint is located to within the precision at both ends |
| Highlights.CachedIgnoresCheckpoints | src/birdbird/highlights.py:105-113 | with a cached first sighting only the end time and instants after the cached time are probed |
| Highlights.CachedSpanEnd | src/birdbird/highlights.py:105-113 | with a cached first sighting, the span starts there; a bird still present at the end time ends it there, one leaving at `t2` ends it within the precision of `t2` |
| Highlights.UnsortedCheckpoints | src/birdbird/highlights.py:116 | the checkpoint list is in time order only from 1.5 s on: in a 1.2 s clip the span can start after it ends |
| Highlights.BuildFades | src/birdbird/highlights.py:243-282 | the loop builds `n - 1` video and `n - 1` audio filters, the `i`-th carrying the offset and labels of fade `i` |
| Highlights.FadesChained | src/birdbird/highlights.py:259-269 | each filter takes the previous filter's output label and input `i`, and only the last writes `vout`/`aout` |
| Highlights.CumulativeClosedForm | src/birdbird/highlights.py:253-282 | the offset of fade `i` is the sum of the first `i` durations less `i` overlaps, clamped at 0 |
| Highlights.OffsetsMonotone | src/birdbird/highlights.py:253-282 | segments no shorter than the crossfade never move a later fade earlier |
| Highlights.ListingRoundTrip | src/birdbird/highlights.py:311-314 | the concat list file names exactly the files, in order, when no name holds a newline or a quote |
| Highlights.LinesOfListing | src/birdbird/highlights.py:312-313 | the list file splits into one `file '...'` line per file and a final empty line |
| Highlights.UnquoteEntries | src/birdbird/highlights.py:313 | each `file '...'` line reads back as its file name |
| Highlights.ConcatenateWithCrossfadeRun | src/birdbird/highlights.py:205-327 | the method runs the commands, and returns the outcome, of the concatenation function |
| Highlights.ConcatenationOutcome | src/birdbird/highlights.py:205-327 | no file means no ffmpeg run and failure; one file, one copy; several, a crossfade run over all files with `2(n-1)` filters, then the plain concatenation of the same files only if it failed; success is the last run's |
| Highlights.SumClipDurations | src/birdbird/highlights.py:369 | the original duration is the sum of the clip durations |
| Highlights.CollectSegments | src/birdbird/highlights.py:372-386 | the loop gathers the segments of every clip, and the durations of the clips that gave one, in clip order |
| Highlights.ExtractAll | src/birdbird/highlights.py:392-398 | the loop keeps the files of the segments whose extraction succeeded |
| Highlights.GenerateHighlightsRun | src/birdbird/highlights.py:330-420 | the method returns what the pipeline function returns |
| Highlights.HighlightsOrderIndependent | src/birdbird/highlights.py:353 | the clips are sorted first, so the directory's listing order does not matter |
| Highlights.FoundSegmentsPerClip | src/birdbird/highlights.py:375-386 | each clip gives at most one segment, and there are none exactly when no clip gives one |
| Highlights.ClipsWithoutSegments | src/birdbird/highlights.py:352-389 | sorting keeps the clip list: it is empty exactly when no clip was found, and no sorted clip gives a segment exactly when no found clip does |
| Highlights.BirdClipsWithinOriginal | src/birdbird/highlights.py:369-385 | the bird clips' duration lies between 0 and the original duration when no clip reports a negative frame count |
| Highlights.SegmentFilesDistinct | src/birdbird/highlights.py:396 | distinct segment indices give distinct temporary files |
| Highlights.ExtractedInOrder | src/birdbird/highlights.py:393-398 | the extracted files are those of exactly the segments whose extraction succeeded, in segment order |
| Highlights.NothingExtracted | src/birdbird/highlights.py:393-401 | no segment file is produced exactly when every extraction fails |
| Highlights.HighlightsOutcome | src/birdbird/highlights.py:353-420 | each error is raised exactly for its cause: no clip; no clip with a segment; no segment extracted; the concatenation of the extracted files failed. On success `segment_count` counts the segments found, extracted or not, and `clip_count` the clips |
| Detector.Classify | src/birdbird/detector.py:63-69 | a box qualifies as a bird exactly when it has class 14 and reaches the bird threshold, and as a person exactly when it has class 0 and reaches the person threshold |
| Detector.FirstQualifyingSpec | src/birdbird/detector.py:58-70 | the scan finds nothing exactly when no box qualifies; otherwise it reports the first qualifying box, with its kind and confidence |
| Detector.BoxesConcat | src/birdbird/detector.py:59-63 | results are scanned in order, and the boxes in order within each result |
| Detector.DetectInFrameMeaning | src/birdbird/detector.py:37-46 | a frame shows a bird exactly when some box of its results qualifies |
| Detector.Interval | src/birdbird/detector.py:100-113 | the sampling interval is at least 1 at every frame, even below one frame per second |
| Detector.DetectInVideoDetailed | src/birdbird/detector.py:83-125 | a clip that does not open gives None; otherwise the loop returns what the frame scan returns |
| Detector.DetectInVideo | src/birdbird/detector.py:72-125 | the call raises exactly when the clip opens at a frame rate of 0 and has a frame to read, since frame 0 is always sampled and its timestamp divides by the rate; otherwise a clip contains a bird exactly when it opens and the scan finds a detection |
| Detector.ScanSpec | src/birdbird/detector.py:104-125 | the scan reports the detection of the lowest-numbered sampled frame that has one, stamped `f / fps`, and finds nothing only when no sampled frame has one |
| Detector.SamplingCoverage | src/birdbird/detector.py:100-115 | from one frame per second on, every run of `max(1, int(fps))` consecutive frames holds a sampled frame |
| ClipFilter.FilterClips | src/birdbird/filter.py:32-86 | the loop returns the tally of the sorted, limited clip list, or the error of the first clip whose frame rate is 0 |
| ClipFilter.RunFailsAfter | src/birdbird/filter.py:65-79 | once a clip raises, the whole run raises the same error |
| ClipFilter.RunSpec | src/birdbird/filter.py:62-79 | after a run, `total` is the number of clips, each clip is counted once as with birds or filtered out, and the recorded clips are exactly those with a bird, each holding its first sighting and its confidence rounded to 3 places. The linked clips are exactly those with a bird not already present, each linked once |
| ClipFilter.NoBirds | src/birdbird/filter.py:62-83 | with no bird anywhere nothing is recorded and nothing is linked, so an empty map is written |
| Songs.TimestampFromFilename | src/birdbird/songs.py:117-166 | a timestamp comes only from an `.avi` name of at least ten characters when there is a directory date. It reads back as the date-time the name encodes, in the directory's year and month, on the day the name's first two digits give |
| Songs.DirDateSpec | src/birdbird/songs.py:169-185 | a directory date comes exactly from an eight-digit name of a real date and writes back as that name; every real date's compact name parses back to it |
| Songs.ValidateTimestamps | src/birdbird/songs.py:188-239 | the loop computes the clock check over the clip names |
| Songs.TimestampsReliableMeaning | src/birdbird/songs.py:204-239 | the clock is trusted exactly when there is a directory date and its day lies between the days of two clip names; the month-boundary branch can never decide |
| Songs.ReliableBetweenClips | src/birdbird/songs.py:204-239 | a trusted clock has a directory date whose day lies between the days of two clip names |
| Songs.BetweenClipsReliable | src/birdbird/songs.py:204-239 | a directory date whose day lies between the days of two clip names makes the clock trusted |
| Songs.ParseBirdnetCsv | src/birdbird/songs.py:242-308 | a missing CSV gives no detection. Otherwise the loop reads the rows `csv.DictReader` makes, with the first line as header, blank lines skipped and a short line padded with None. It gives the detections of the rows that parse, in order, or raises at the first row that raises |
| Songs.DictRow | src/birdbird/songs.py:264-265 | a row has exactly the header's names as its keys |
| Songs.DictRowSpec | src/birdbird/songs.py:264-265 | with distinct header names, each name of a row holds the field in its own position of the line, or None when the line ends before it |
| Songs.BirdnetHeaderLayout | src/birdbird/songs.py:248-249 | BirdNET's header puts the start, end, scientific name, common name and confidence columns first, in that order, with no repeated name |
| Songs.BirdnetRow | src/birdbird/songs.py:264-271 | under BirdNET's layout each of the five columns the loop reads holds the line's field in that position, or None past the line's end |
| Songs.ParseRowsStep | src/birdbird/songs.py:265-306 | one more row either raises, and the file raises its error, or adds its detection when it makes one |
| Songs.RaisedStays | src/birdbird/songs.py:265-306 | once a row raises, the whole file raises the same error: the loop catches only `KeyError` and `ValueError` |
| Songs.RowTimestampSpec | src/birdbird/songs.py:273-292 | every timestamp a detection gets is the one the clock rule prescribes |
| Songs.DateOnlyStamp | src/birdbird/songs.py:287-292 | without a trusted clock only the directory date is kept, or nothing when there is none |
| Songs.EmptyStamp | src/birdbird/songs.py:285-286 | with a trusted clock but no clip time the timestamp is empty |
| Songs.ShiftedStamp | src/birdbird/songs.py:273-284 | with a trusted clock and a clip time, the timestamp is that time shifted by the whole seconds of the start offset, and the row raises when the shift leaves the minute |
| Songs.ShiftSecondsSpec | src/birdbird/songs.py:280-284 | shifting an ISO time by the start offset replaces its second field by `second + int(start_s)` |
| Songs.ParsedRow | src/birdbird/songs.py:266-303 | a row that parses gives a detection stamped from its clip, carrying the row's names and its parsed start, end and confidence |
| Songs.DetectSpec | src/birdbird/songs.py:273-303 | a detection made from a full row carries the clip's name, the row's numbers and names, and the timestamp the clock rule prescribes |
| Songs.ParsedRowsRaise | src/birdbird/songs.py:265-306 | a file parses without raising exactly when none of its rows raises; otherwise it raises the error of the first row that does |
| Songs.ParsedRows | src/birdbird/songs.py:265-306 | no more detections than rows, each stamped from the source clip |
| Songs.RowRaises | src/birdbird/songs.py:266-271 | a row raises only at one of the five columns, one its line ended before (`float(None)` raises `TypeError`), and at a name column only once the three numbers have parsed |
| Songs.FullRowNeverRaises | src/birdbird/songs.py:266-305 | a row whose line fills every column never raises |
| Songs.MissingColumnSkipped | src/birdbird/songs.py:266-306 | a row that the line fills completely but that lacks one of the five columns is skipped, whatever else it holds |
| Songs.BirdnetNamesNeverRaise | src/birdbird/songs.py:264-271 | under BirdNET's layout only a number column can raise: a line that reaches the confidence also reaches both names |
| Songs.ShortBirdnetLine | src/birdbird/songs.py:264-271 | under BirdNET's layout a line with fewer than five fields raises, unless a number before its end fails to parse |
| Songs.ToDictSpec | src/birdbird/songs.py:63-73 | every field is copied and the confidence is rounded to within half a unit of the fourth decimal place |
| Songs.ConfidenceOrder | src/birdbird/songs.py:410 | the detections come out as a permutation, by descending confidence, with equal confidences in collection order |
| Songs.SpeciesList | src/birdbird/songs.py:413-436 | the species list is sorted, has no repeats and names exactly the species detected |
| Songs.SummarySpec | src/birdbird/songs.py:409-440 | the summary lists every detection once, sorted as above. Its species list and counts are those of the detections, no more files with detections than detections, and the number of clips processed |
| Songs.AnalyzeSongs | src/birdbird/songs.py:311-440 | the method returns the report of the run |
| Songs.ExtractAudio | src/birdbird/songs.py:360-366 | the loop keeps the clips whose audio could be extracted, in order |
| Songs.AnalyzeClips | src/birdbird/songs.py:376-407 | the loop collects the parsed detections of every extracted clip, clip by clip, and stops with the error of the first clip whose CSV raises |
| Songs.ClipRaisedStays | src/birdbird/songs.py:378-407 | once a clip's CSV raises, the whole run raises that error |
| Songs.CollectRaises | src/birdbird/songs.py:378-407 | the clips run without raising exactly when no clip's CSV raises; otherwise the error names the first clip whose CSV does, with the column it raised at |
| Songs.CollectedFromClips | src/birdbird/songs.py:376-407 | every collected detection names one of the clips |
| Songs.ReportedClips | src/birdbird/songs.py:336-407 | a detection from an extracted clip names an `.avi` clip of the listing that was processed and whose audio was extracted |
| Songs.ReportedRaise | src/birdbird/songs.py:336-407 | a run that raises on a CSV names a processed clip whose audio was extracted and for which BirdNET wrote a file |
| Songs.SongsReportSpec | src/birdbird/songs.py:336-440 | the run fails with no clip, or with no audio extracted, exactly in those cases. Otherwise it fails only for a processed clip whose audio was extracted and whose CSV BirdNET wrote. On success it reports the clips processed and the clock check, and every detection names a processed clip whose audio was extracted |
| Dates.MakeDate | src/birdbird/songs.py:177-183 | `datetime(year, month, day)` succeeds exactly for a real calendar date, and gives that date |
| Dates.PadFits | src/birdbird/publish.py:159-162 | a number below `10^width` pads to exactly `width` digits that read back as it |
| Dates.DigitsInjective | src/birdbird/publish.py:198-205 | two digit strings of the same length and value are the same string |
| Dates.PadDigits | src/birdbird/publish.py:198-205 | padding the value of a digit string to its own width gives it back |
| Dates.FormatDateFields | src/birdbird/publish.py:321-323 | `strftime("%Y-%m-%d")` writes four year digits, a dash, two month digits, a dash and two day digits |
| Dates.FormatDateRoundTrip | src/birdbird/publish.py:248 | a real date written as `YYYY-MM-DD` reads back as itself |
| Dates.ParseIsoDateCanonical | src/birdbird/publish.py:247-253 | text that reads as a date is exactly that date's `YYYY-MM-DD` form |
| Dates.CompactRoundTrip | src/birdbird/songs.py:169-185 | a real date written as `YYYYMMDD` reads back as itself |
| Dates.CompactCanonical | src/birdbird/publish.py:198-205 | an eight-digit name that reads as a date is that date's compact form |
| Dates.IsoRoundTrip | src/birdbird/songs.py:280-284 | a valid date-time written by `isoformat()` reads back as itself |
| Dates.FilenameDays | src/birdbird/publish.py:264-273 | the days read from clip names lie in 1..31 and are no more than the names |
| Dates.FilenameDaysMembers | src/birdbird/publish.py:264-273 | the days are exactly the days of the names that have one: two digits first, at least ten characters, between 1 and 31 |
| Dates.MinOf | src/birdbird/publish.py:280 | `min` is a member of the list and at most every element |
| Dates.MaxOf | src/birdbird/publish.py:281 | `max` is a member of the list and at least every element |
| Dates.DayRangeNeverWraps | src/birdbird/publish.py:283-296 | the smallest day never exceeds the largest, so the month-boundary branch is dead and the check is a plain interval test |
| Publish.OriginalDateSpec | src/birdbird/publish.py:188-209 | the original date is the directory's date written as `YYYY-MM-DD`, or "unknown" exactly when the name is not an eight-digit real date |
| Publish.ListBatches | src/birdbird/publish.py:79-105 | the loop gives the batch ids of the listing, sorted newest first |
| Publish.BatchIdRoundTrip | src/birdbird/publish.py:97-101 | a prefix `batches/<id>/` with a slash-free id names that batch, and every id read back is slash-free |
| Publish.ListBatchesSpec | src/birdbird/publish.py:94-105 | the list holds the batch named by every folder prefix, once per prefix, greatest first |
| Publish.MaxSequenceOf | src/birdbird/publish.py:147-154 | the loop computes the largest sequence number that parses, skipping the ids that do not |
| Publish.MaxSequenceBound | src/birdbird/publish.py:147-154 | that maximum bounds every sequence number that parses |
| Publish.MaxSequenceAttained | src/birdbird/publish.py:147-154 | the maximum, unless 0, is the sequence number of one of the ids |
| Publish.GenerateBatchId | src/birdbird/publish.py:114-162 | the method returns the id and flag the batch-id rule chooses for the date prefix, with the clock reading passed in |
| Publish.BatchIdSequence | src/birdbird/publish.py:143-162 | an id built from an underscore-free prefix reads back its sequence number and starts with the prefix |
| Publish.BatchIdSplit | src/birdbird/publish.py:151-159 | splitting an id built from an underscore-free prefix at `_` gives back the prefix and the two-digit sequence |
| Publish.DigitsStripped | src/birdbird/publish.py:151 | `int()` strips whitespace, which leaves a digit string as it is |
| Publish.NextBatchIdFresh | src/birdbird/publish.py:156-159 | one past the largest sequence of a date names no listed batch |
| Publish.BatchIdSpec | src/birdbird/publish.py:139-162 | with no batch of that date the id is sequence 1 and new. A new id for an existing date is one past the largest sequence and collides with no listed batch; otherwise the largest sequence is reused and reported as existing |
| Publish.DatePrefixOfDate | src/birdbird/publish.py:131-137 | for a known date the prefix is the date's `YYYYMMDD` form, which holds no underscore |
| Publish.RemoveDashes | src/birdbird/publish.py:137 | removing the dashes from `Y-M-D` leaves `YMD` |
| Publish.UpdateLatestSpec | src/birdbird/publish.py:500-549 | the new batch becomes `latest` and is listed first, and only once; every other entry stays, in its order; a missing file counts as no batches |
| Publish.CleanupOldBatches | src/birdbird/publish.py:552-628 | with at most `keep_latest` batches, or no confirmation, nothing is deleted and `latest.json` is untouched. Otherwise the batches past the first `keep_latest` are deleted and pruned from `latest.json`, when it exists |
| Publish.CleanupSplit | src/birdbird/publish.py:561-565 | the kept and deleted batches partition the list, the deleted ones being the oldest |
| Publish.PruneLatestSpec | src/birdbird/publish.py:608-616 | pruning removes exactly the deleted batches' entries and keeps the rest in order. `latest` is kept when not deleted, moves to the first remaining entry when deleted, and dangles only when nothing remains |
| Publish.ShouldUploadSpec | src/birdbird/publish.py:47-76 | a missing object is uploaded. A single-part object, whose quoted ETag is its MD5, is uploaded exactly when the local MD5 differs; a multipart object, exactly when the sizes differ |
| Publish.ExtractDateRange | src/birdbird/publish.py:212-326 | the loop over the clip names computes the date range function |
| Publish.DateRangeSpec | src/birdbird/publish.py:242-326 | a range is built exactly when the directory date parses, the clip days pass the clock check and the latest clip day exists in the directory's month. It then runs from the earliest to the latest clip day of that month; otherwise both ends are the directory date |
| Publish.DateRangeEnds | src/birdbird/publish.py:319-323 | each end of a built range reads back as a date of the directory's month |
| RemoveBatch.PickBatch | utilities/remove_batch.py:49-65 | the choice, counting from 1, picks the id of that entry exactly when it is in range; otherwise the exit status is 1 |
| RemoveBatch.Ids | utilities/remove_batch.py:104 | the known ids are the entries' ids, in order |
| RemoveBatch.RemoveBatch | utilities/remove_batch.py:92-139 | an empty index exits with 0, and an unknown id or an invalid choice with 1. For a known batch, a dry run exits with 0, a refused confirmation with 1, and a confirmed run writes the index; nothing is written in any other case |
| RemoveBatch.WrittenIndex | utilities/remove_batch.py:103-139 | a written index drops the removed batch, which was listed, and keeps every other entry in order. Its `latest` is the first remaining id, or none when none remain |
| RemoveBatch.AgreesWithCleanup | utilities/remove_batch.py:113 | the entries kept are those the publisher's cleanup keeps after deleting that one batch |
| Species.SampleCountSpec | src/birdbird/species.py:81-85 | a sampling time lies below the duration exactly when its index is below the number of samples |
| Species.ScheduleSpec | src/birdbird/species.py:78-89 | the schedule starts half an interval in and steps by one interval while below the duration, and the next step would reach it. A video shorter than half an interval gets its middle frame; for a positive duration every time lies strictly inside the video |
| Species.FramesOf | src/birdbird/species.py:92-105 | one frame per timestamp, in order, the `i`-th written to `frame_<i:04d>.jpg` |
| Species.SampleTimestamps | src/birdbird/species.py:76-89 | the loop and its fallback compute the sampling times: the schedule for a positive rate, the error for a rate that is not a number, a rate of 0 or a negative rate whose loop never ends |
| Species.TimestampsSpec | src/birdbird/species.py:76-89 | a rate that is not a number fails exactly with a `TypeError`, a rate of 0 exactly with a division by zero, and the never-ending loop comes only from a negative rate. Any times given are at least one, and a positive rate gives the schedule |
| Species.NegativeRateNeverEnds | src/birdbird/species.py:82-85 | with a negative rate whose first time lies below the duration, every later time is at most the first, so `while t < duration` never ends |
| Species.ExtractFromSpec | src/birdbird/species.py:92-107 | extraction gives every frame exactly when ffmpeg succeeds on each; otherwise it fails at the first frame ffmpeg fails on |
| Species.SampleFramesFromVideo | src/birdbird/species.py:66-107 | the method returns what sampling returns as a function of the duration, the rate and ffmpeg's answers: the frames, or the first error raised |
| Species.SampledSpec | src/birdbird/species.py:66-107 | sampling succeeds exactly when the rate gives times and ffmpeg extracts every frame. The frames are then at least one, one per sampling time in time order, each in its own numbered file |
| Species.ParseLabelsFile | src/birdbird/species.py:110-123 | the loop keeps the stripped lines that are labels, in order |
| Species.LabelsSpec | src/birdbird/species.py:117-123 | the labels are exactly the stripped lines that are neither blank nor comments |
| Species.LabelsStripped | src/birdbird/species.py:120-122 | each label is already stripped, non-empty and not a comment |
| Species.WslPathSpec | src/birdbird/species.py:255-268 | the result has no backslash. A path with a drive letter maps to `/mnt/<lowercase drive>` followed by the rest with slashes; any other path keeps its length; a rewritten path is left alone |
| Species.Process | src/birdbird/species.py:157-215 | no frames give no detections before anything remote is tried. Otherwise a failed remote run fails with its error, and a successful one gives the detections of the confident frames; a threshold that is not a number raises at the first frame with an entry, and keeps nothing when none has one |
| Species.KeptSpec | src/birdbird/species.py:203-213 | the detections come, in frame order, from exactly the frames that have a result at or above the threshold, each taking its time from its frame and the rest from its result |
| Species.CollectSpecies | src/birdbird/species.py:454-459 | the loop builds a dictionary whose keys, in insertion order, are the distinct species in order of first detection, each holding its confidences in detection order |
| Species.AggregateSpeciesSummary | src/birdbird/species.py:449-468 | the method computes the species summary |
| Species.CollectStep | src/birdbird/species.py:456-459 | one more detection appends its species to the key order when new, and its confidence to its species' list |
| Species.ConfidencesCount | src/birdbird/species.py:456-459 | a species' list holds one confidence per detection of it |
| Species.GroupsNonEmpty | src/birdbird/species.py:462-466 | every list is non-empty, so the average never divides by zero |
| Species.AggregateEntries | src/birdbird/species.py:449-468 | each species of the summary occurs once and every detected species has an entry. Its count is its number of detections, and its average the mean of their confidences rounded to 3 places |
| Species.AggregateOrder | src/birdbird/species.py:462 | counts never increase along the summary, and species of equal count keep their order of first detection |
| Species.AggregateTotal | src/birdbird/species.py:449-468 | the counts add up to the number of detections |
| Species.CheckModeSpec | src/birdbird/species.py:483-519 | processing goes ahead exactly with a highlights video and a mode other than "local" or "cloud", mode "remote" also needing remote settings and an answering host; each error is reported for exactly its cause. A configuration loaded from the file has remote settings only in mode "remote" |
| Species.IdentifySpecies | src/birdbird/species.py:471-562 | a failed check raises its error, failed sampling its error, missing remote settings the assertion, a failed remote run its error, and a threshold that is not a number a `TypeError` when a frame has an entry. Otherwise the result has the mode, the rounded duration, the sampling rate, the number of frames, the summary and the detections of the confident frames; a successful run had remote settings and at least one frame |
| Frames.BirdSizeSpec | src/birdbird/frames.py:45-85 | the bird size is at least 0 and at least the area ratio of every bird box; when positive it is the ratio of one bird box |
| Frames.CalculateBirdSize | src/birdbird/frames.py:53-85 | the nested loops over results and boxes compute the largest bird box ratio of the frame |
| Frames.ScanBirdSizes | src/birdbird/frames.py:69-83 | the inner loop extends the running maximum over one result's boxes |
| Frames.PositionSpec | src/birdbird/frames.py:88-137 | the position score is 0, 0.3 or 1.0: 0 exactly when there is no bird box, 1.0 exactly when some bird box stays more than 10 pixels from the left, right and top edges |
| Frames.CalculatePosition | src/birdbird/frames.py:97-137 | the nested loops compute the best position score of the frame's bird boxes |
| Frames.ScanPositions | src/birdbird/frames.py:113-135 | the inner loop extends the running best over one result's boxes |
| Frames.MinReal | src/birdbird/frames.py:152 | `min` is a member and at most every value |
| Frames.MaxRealOf | src/birdbird/frames.py:153 | `max` is a member and at least every value |
| Frames.NormalizeScores | src/birdbird/frames.py:140-161 | every factor keeps its key and its number of values |
| Frames.RescaleSpec | src/birdbird/frames.py:159 | rescaling lands every value in [0, 1], exactly the minimum on 0 and the maximum on 1, and keeps the order of values both ways |
| Frames.NormalizeSpec | src/birdbird/frames.py:146-159 | the confidences and empty lists are kept; a factor spread less than `1e-6` becomes 0.5 everywhere; otherwise it is rescaled onto [0, 1] as above |
| Frames.NormalizedUnit | src/birdbird/frames.py:152-159 | every normalised factor other than the confidence lies in [0, 1] |
| Frames.ChosenClips | src/birdbird/frames.py:183-185 | the scored clips are keys of the detection file |
| Frames.ExtractAndScoreFrames | src/birdbird/frames.py:164-305 | the method returns the ranked frames of the scoring function |
| Frames.MeasureClips | src/birdbird/frames.py:187-263 | the loop measures the readable clips in order and collects the four factor lists from those measures |
| Frames.CombineScores | src/birdbird/frames.py:271-289 | the loop gives every measured frame its weighted sum over the normalised lists |
| Frames.MeasuredSpec | src/birdbird/frames.py:206-263 | the measured frames are, in clip order, exactly the clips whose frame could be read, each measured from its own detection and frame |
| Frames.NormalizedColumns | src/birdbird/frames.py:188-269 | the confidences stay as detected; sharpness, bird size and position are each normalised over all measured frames |
| Frames.ScoredSpec | src/birdbird/frames.py:268-289 | each frame keeps its raw measures. Its combined score weighs its raw confidence and its normalised sharpness, bird size and position |
| Frames.CombinedBounds | src/birdbird/frames.py:268-289 | with non-negative weights and a confidence in [0, 1], a combined score lies between 0 and the sum of the weights |
| Frames.ScoreFramesOrder | src/birdbird/frames.py:164-292 | the result is a permutation of the scored frames, sorted by descending combined score, with equal scores in clip order |
| Frames.ScoreFramesKeyOrder | src/birdbird/frames.py:183-185 | the result does not depend on the order of the detection file's keys |
| Frames.SaveTopFrames | src/birdbird/frames.py:308-349 | the loop ranks the first `top_n` frames from 1 and saves those whose frame can be read again |
| Frames.SavedRanks | src/birdbird/frames.py:320-347 | saved ranks rise strictly, and each names a readable frame at that place of the ranking, so at most `top_n` frames are saved |
| Frames.SavedComplete | src/birdbird/frames.py:320-347 | every readable frame among the first `top_n` is saved under its rank |
| Frames.Metadata | src/birdbird/frames.py:362-376 | one entry per frame |
| Frames.SaveFrameMetadata | src/birdbird/frames.py:362-376 | the loop builds the entries of the metadata file |
| Frames.MetadataSpec | src/birdbird/frames.py:363-376 | entries are ranked 1, 2, ... in list order, each for its own clip and time; for a list in descending order the rounded combined scores never rise |
| Paths.FromInputDir | src/birdbird/paths.py:64-109 | every path of the layout is the named child of the directory above it |
| Paths.LayoutUnderBirdbird | src/birdbird/paths.py:64-109 | everything lies under `birdbird`, which lies directly in the input directory |
| Paths.LayoutTreesDisjoint | src/birdbird/paths.py:64-109 | the working files lie under `working` and not under `assets`; the published files lie directly in `assets` and not under `working` |
| Paths.LayoutDistinct | src/birdbird/paths.py:64-109 | no two paths of the layout coincide |
| Paths.AssetFramePaths | src/birdbird/paths.py:122-132 | `top_n` paths, none when it is not positive, the `k`-th being `frame_<k+1>` padded to two digits in the assets directory |
| Paths.FrameNamesDistinct | src/birdbird/paths.py:122-132 | the frame paths are distinct |
| Paths.FrameNameRank | src/birdbird/paths.py:131 | the digits of a frame name read back as its rank |
| Paths.LoadDetections | src/birdbird/paths.py:135-152 | a missing file raises an error naming it; otherwise the parsed contents are returned |
| Config.Get | src/birdbird/config.py:80-89 | a lookup succeeds exactly on an object, giving the value under the key or the default |
| Config.LoadConfig | src/birdbird/config.py:55-69 | a parsed file gives its value; a missing or invalid one gives `{}` |
| Config.GetLocation | src/birdbird/config.py:72-89 | the location is both coordinates or neither: both exactly when the configured `lat` and `lon` are numbers, then as floats. Python raises exactly when a section is not an object |
| Config.RemoteOf | src/birdbird/config.py:105-114 | remote settings come only in mode "remote", exactly from an object section naming a host, with shell, environment and timeout defaulting to "bash", "~/bioclip_env" and 300. The section raises exactly when it is null, a boolean or a number, a string containing "host" or a list holding "host"; anything else gives none |
| Config.GetSpeciesConfig | src/birdbird/config.py:92-128 | the call raises exactly for a configuration, species or processing value that is not an object, a remote section that raises, or a truthy `labels_file` that is not a string. Otherwise each field is the configured value or its default, and the labels file is present, expanded, exactly when it is truthy |
| Config.SpeciesDefaults | src/birdbird/config.py:92-128 | a missing, invalid or species-free configuration gives the defaults: disabled, 6 samples a minute, confidence 0.5, no labels file, mode "local", no remote settings |
| Config.GetLabelsFile | src/birdbird/config.py:45-52 | the configured labels file when it is set and exists, the bundled list otherwise |

## Left out

- Video decoding, OpenCV, the YOLO detector, the BioCLIP classifier and BirdNET are not modelled. Their answers are inputs: a probe from a time to a sighting, a frame reader, a classifier's labels, and the rows of a CSV file.
- ffmpeg and ffprobe are not modelled. Each run is a command value, and whether it succeeds is an input. The text of the command lines, `suppress_stdout` and the temporary files are not modelled.
- Seeking to frame `int(t * fps)` and reading that frame are folded into the probe. The detector is taken to answer the same way each time it is asked about a frame.
- SSH, scp and the remote BioCLIP run are not modelled: `_create_remote_dir`, `_transfer_files`, `_run_remote_inference`, `_fetch_results`, `_cleanup_remote` and the embedded inference script. `check_remote_connection`'s answer and the remote run's parsed results are inputs.
- The MD5 digest (`calculate_md5`) and the sharpness of a frame (`calculate_sharpness`) are inputs.
- The object-storage client, the boto3 listing, the uploads and the confirmation prompts are not modelled. The listing's prefixes, the stored ETags and the user's answers are inputs.
- The clock is not modelled: the current time is a parameter.
- The filesystem is not modelled: directory listings, existence checks and file contents are inputs. `mkdir`, symlinks, copies and deletions are not modelled.
- JSON writing is not modelled. The model computes the value that `save_best_clips`, `save_frame_metadata` and `update_latest_json` would write. `save_song_detections` and `save_species_results` only serialise a record the model already computes, so they are not modelled.
- The command-line layer (`cli.py`), progress bars, console output and the timing statistics of `extract_and_score_frames` are not part of this model.
- Hardware encoder selection, web optimisation, a local species processor and song-clip extraction do not appear in the code modelled here, so the model does not have them.
- `utilities/update_metadata.py`, `preview_viewer.py` and `review_person_detections.py` are not part of this model.
- Floats are modelled as exact reals. `round(x, n)` rounds ties upward, whereas Python rounds the binary value half to even. `str(float)` and the `:.1f` and `:.2f` renderings in file names are not modelled.
- `int()` and `isdigit()` are modelled on ASCII digits only; Python also accepts other Unicode digits. `float()` on a CSV field is an input.
- `strptime` is modelled strictly: fixed-width fields with zero padding.
- JSON objects with keys in insertion order are modelled as maps, together with the sequence of their keys.
- `Path.expanduser` is modelled only for `~` and `~/...`.
- Config.GetSpeciesConfig: the labels file is kept as the expanded text. `Path()` would also collapse repeated and trailing slashes, and `~user` forms are not expanded (see `Path.expanduser` above).
- BestClips.FindBestClip: requires a non-negative window. With a negative window, Python's shrink loop runs past the last detection and raises `IndexError`.
- Highlights.GenerateHighlightsRun: the cached first sightings are an input (`cache`), None meaning no cache. As written, highlights.py:15 fails at import. Even with the import fixed, highlights.py:358 passes the input directory, and `paths.load_detections` raises instead of returning None, so the None branch models the evident intent.
- Frames.ExtractAndScoreFrames: the loaded detections are an input. As written, frames.py:16 fails at import, and frames.py:178 passes the input directory rather than the detections file.
- Publish and RemoveBatch: every member models its function as if `publish.py` could be imported. As written, publish.py:17 fails at import, and utilities/remove_batch.py fails with it. `publish_to_r2`, the only caller of `load_detections` in `publish.py` (line 691), is not part of this model.
- Species.SampleTimestamps: a negative rate whose loop never ends returns `Unending` instead of running forever.
- Species.WslPathSpec: the drive letter is lowercased for ASCII letters only; Python's `lower()` also folds other letters.
- Songs.ParseRow: a name column that holds None, which only a header not putting both names before the confidence allows, is reported as a short row. Python would store None as the name. `Songs.BirdnetNamesNeverRaise` shows this cannot happen under BirdNET's header.
- The video's duration, which `get_video_duration` reads with ffprobe, is an input of the species stage.
- Frames.ExtractAndScoreFrames: requires every decoded frame to have at least one pixel. Python divides by the frame's area.
- Highlights.BinarySearchEntry: requires a positive precision, as the callers' default of 1.0 gives. At 0 or below, Python's loop may not end.
- Highlights.BinarySearchExit: requires a positive precision, for the same reason.
