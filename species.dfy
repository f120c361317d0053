/** Species identification around BioCLIP: the sampling schedule over the
    highlights reel, the labels file, the Windows-to-WSL path rewrite for
    remote hosts, which classified frames are kept, the per-species
    summary, and the mode checks that run first.  The classifier, the
    remote host and ffmpeg are inputs: the parsed `results.json`, whether
    the host answered, the video's duration. */
module Species {
  import opened Prelude
  import opened Seqs
  import opened Numbers
  import opened Text
  import Config

  // ---------------------------------------------------------------------
  // sample_frames_from_video: the schedule
  // ---------------------------------------------------------------------

  /** The `k`-th sampling time: the middle of the `k`-th interval. */
  function SampleTime(interval: real, k: nat): real {
    interval / 2.0 + k as real * interval
  }

  /** The number of sampling times below `duration`. */
  function SampleCount(duration: real, interval: real): (n: nat)
    requires interval > 0.0
  {
    var x := (duration - interval / 2.0) / interval;
    if x <= 0.0 then 0 else -((-x).Floor)
  }

  /** The schedule: every interval's middle below the duration, or the
      middle of the video when there is none. */
  function Schedule(duration: real, samplesPerMinute: real): seq<real>
    requires samplesPerMinute > 0.0
  {
    var interval := 60.0 / samplesPerMinute;
    var n := SampleCount(duration, interval);
    if n == 0 then [duration / 2.0] else seq(n, k requires 0 <= k < n => SampleTime(interval, k))
  }

  /** A sampling time lies below the duration exactly when its index is
      below the count. */
  lemma SampleCountSpec(duration: real, interval: real, k: nat)
    requires interval > 0.0
    ensures k < SampleCount(duration, interval) <==> SampleTime(interval, k) < duration
  {
    var x := (duration - interval / 2.0) / interval;
    assert x * interval == duration - interval / 2.0;
    assert SampleTime(interval, k) < duration <==> k as real * interval < x * interval;
    MulStrict(k as real, x, interval);
    if x > 0.0 {
      var f := (-x).Floor;
      assert f as real <= -x < f as real + 1.0;
    }
  }

  lemma MulStrict(a: real, b: real, m: real)
    requires m > 0.0
    ensures a < b <==> a * m < b * m
  {
    if a < b {
      assert (b - a) * m > 0.0;
    } else {
      assert (a - b) * m >= 0.0;
    }
  }

  /** The schedule starts half an interval in and steps by one interval
      while below the duration; the next step would reach the duration;
      a video shorter than half an interval gets its middle frame. */
  lemma ScheduleSpec(duration: real, samplesPerMinute: real)
    requires samplesPerMinute > 0.0
    ensures var interval := 60.0 / samplesPerMinute;
            var ts := Schedule(duration, samplesPerMinute);
            && |ts| >= 1
            && (SampleTime(interval, 0) >= duration ==> ts == [duration / 2.0])
            && (SampleTime(interval, 0) < duration ==>
                  && (forall k :: 0 <= k < |ts| ==> ts[k] == SampleTime(interval, k) && ts[k] < duration)
                  && SampleTime(interval, |ts|) >= duration)
            && (duration > 0.0 ==> forall k :: 0 <= k < |ts| ==> 0.0 < ts[k] < duration)
  {
    var interval := 60.0 / samplesPerMinute;
    var n := SampleCount(duration, interval);
    SampleCountSpec(duration, interval, 0);
    SampleCountSpec(duration, interval, n);
    forall k: nat | k < n ensures SampleTime(interval, k) < duration {
      SampleCountSpec(duration, interval, k);
    }
  }

  datatype Frame = Frame(path: string, timestamp: real)

  /** `output_dir / f"frame_{i:04d}.jpg"`. */
  function FramePath(outputDir: string, i: nat): string {
    outputDir + "/frame_" + ZeroPad(i, 4) + ".jpg"
  }

  function FramesOf(timestamps: seq<real>, outputDir: string): (r: seq<Frame>)
    ensures |r| == |timestamps|
    ensures forall i :: 0 <= i < |r| ==> r[i] == Frame(FramePath(outputDir, i), timestamps[i])
  {
    seq(|timestamps|, i requires 0 <= i < |timestamps| => Frame(FramePath(outputDir, i), timestamps[i]))
  }

  /** How `sample_frames_from_video` fails. */
  datatype SamplingError =
    | RateNotNumber                  // TypeError: `60.0 / rate` on a value that is not a number
    | ZeroRate                       // ZeroDivisionError: a rate of 0
    | Unending                       // a negative rate whose first time is below the duration: the loop never ends
    | FrameExtractionFailed(index: nat)  // CalledProcessError: ffmpeg failed on this frame

  /** The sampling times for a configured rate.  A rate that is not a
      number or is 0 raises; a negative rate steps backwards, so the loop
      either never starts (and the middle frame is taken) or never ends. */
  function Timestamps(duration: real, samplesPerMinute: Config.Json): Result<seq<real>, SamplingError> {
    if !Config.IsNumber(samplesPerMinute) then Err(RateNotNumber)
    else
      var rate := Config.ToReal(samplesPerMinute);
      if rate == 0.0 then Err(ZeroRate)
      else if rate > 0.0 then Ok(Schedule(duration, rate))
      else if SampleTime(60.0 / rate, 0) < duration then Err(Unending)
      else Ok([duration / 2.0])
  }

  /** With a negative rate every time the loop reaches stays at or below
      its first one, so once the first is below the duration the loop
      condition holds forever. */
  lemma NegativeRateNeverEnds(duration: real, rate: real, k: nat)
    requires rate < 0.0 && SampleTime(60.0 / rate, 0) < duration
    ensures SampleTime(60.0 / rate, k) <= SampleTime(60.0 / rate, 0) < duration
  {
    var interval := 60.0 / rate;
    assert interval * rate == 60.0;
    assert interval < 0.0;
    MulStrict(interval, 0.0, k as real + 1.0);
  }

  /** The sampling times, when there are any, are one or more; a number
      rate other than 0 fails only when negative. */
  lemma TimestampsSpec(duration: real, samplesPerMinute: Config.Json)
    ensures var r := Timestamps(duration, samplesPerMinute);
            && (r == Err(RateNotNumber) <==> !Config.IsNumber(samplesPerMinute))
            && (r == Err(ZeroRate) <==> Config.IsNumber(samplesPerMinute) && Config.ToReal(samplesPerMinute) == 0.0)
            && (r == Err(Unending) ==> Config.ToReal(samplesPerMinute) < 0.0)
            && (r.Ok? ==> |r.value| >= 1)
            && (Config.IsNumber(samplesPerMinute) && Config.ToReal(samplesPerMinute) > 0.0 ==>
                  r == Ok(Schedule(duration, Config.ToReal(samplesPerMinute))))
  {
    if Config.IsNumber(samplesPerMinute) && Config.ToReal(samplesPerMinute) > 0.0 {
      ScheduleSpec(duration, Config.ToReal(samplesPerMinute));
    }
  }

  /** The `while t < duration` loop of `sample_frames_from_video` and its
      fallback to the middle frame.  For a negative rate whose loop never
      ends the error is returned instead of looping. */
  method SampleTimestamps(duration: real, samplesPerMinute: Config.Json) returns (r: Result<seq<real>, SamplingError>)
    ensures r == Timestamps(duration, samplesPerMinute)
  {
    if !Config.IsNumber(samplesPerMinute) {
      return Err(RateNotNumber);
    }
    var rate := Config.ToReal(samplesPerMinute);
    if rate == 0.0 {
      return Err(ZeroRate);
    }
    var interval := 60.0 / rate;
    if rate < 0.0 {
      if interval / 2.0 < duration {
        return Err(Unending);
      }
      return Ok([duration / 2.0]);
    }
    assert interval > 0.0 by { assert interval * rate == 60.0; }
    var n := SampleCount(duration, interval);
    var timestamps := [];
    var t := interval / 2.0;
    while t < duration
      invariant |timestamps| <= n && t == SampleTime(interval, |timestamps|)
      invariant forall k :: 0 <= k < |timestamps| ==> timestamps[k] == SampleTime(interval, k)
      decreases n - |timestamps|
    {
      SampleCountSpec(duration, interval, |timestamps|);
      timestamps := timestamps + [t];
      t := t + interval;
    }
    SampleCountSpec(duration, interval, |timestamps|);
    if timestamps == [] {
      timestamps := [duration / 2.0];
    }
    assert timestamps == Schedule(duration, rate);
    return Ok(timestamps);
  }

  /** ffmpeg extracts the frame at time `ts[i]` into its file. */
  predicate Extracted(ts: seq<real>, outputDir: string, extract: (real, string) -> bool, i: nat)
    requires i < |ts|
  {
    extract(ts[i], FramePath(outputDir, i))
  }

  /** Extracting the frames from index `i` on: the frames, or the first
      index at which ffmpeg fails. */
  function ExtractFrom(ts: seq<real>, outputDir: string, extract: (real, string) -> bool, i: nat): Result<seq<Frame>, SamplingError>
    requires i <= |ts|
    decreases |ts| - i
  {
    if i == |ts| then Ok(FramesOf(ts, outputDir))
    else if !Extracted(ts, outputDir, extract, i) then Err(FrameExtractionFailed(i))
    else ExtractFrom(ts, outputDir, extract, i + 1)
  }

  /** Extraction gives every frame exactly when ffmpeg succeeds on each,
      and otherwise reports the first frame it fails on. */
  lemma {:induction false} ExtractFromSpec(ts: seq<real>, outputDir: string, extract: (real, string) -> bool, i: nat)
    requires i <= |ts|
    ensures var r := ExtractFrom(ts, outputDir, extract, i);
            && (r.Ok? <==> forall j :: i <= j < |ts| ==> Extracted(ts, outputDir, extract, j))
            && (r.Ok? ==> r.value == FramesOf(ts, outputDir))
            && (r.Err? ==>
                  && r.error.FrameExtractionFailed?
                  && i <= r.error.index < |ts|
                  && !Extracted(ts, outputDir, extract, r.error.index)
                  && forall j :: i <= j < r.error.index ==> Extracted(ts, outputDir, extract, j))
    decreases |ts| - i
  {
    if i < |ts| && Extracted(ts, outputDir, extract, i) {
      ExtractFromSpec(ts, outputDir, extract, i + 1);
    }
  }

  /** `sample_frames_from_video` given the video's duration and ffmpeg's
      success per frame: the sampling times, then the frames. */
  function Sampled(duration: real, samplesPerMinute: Config.Json, outputDir: string, extract: (real, string) -> bool): Result<seq<Frame>, SamplingError> {
    match Timestamps(duration, samplesPerMinute)
    case Err(e) => Err(e)
    case Ok(ts) => ExtractFrom(ts, outputDir, extract, 0)
  }

  /** `sample_frames_from_video`: the frames it extracts, in time order,
      each with its file name. */
  method SampleFramesFromVideo(duration: real, samplesPerMinute: Config.Json, outputDir: string, extract: (real, string) -> bool)
    returns (r: Result<seq<Frame>, SamplingError>)
    ensures r == Sampled(duration, samplesPerMinute, outputDir, extract)
  {
    var sampled := SampleTimestamps(duration, samplesPerMinute);
    if sampled.Err? {
      return Err(sampled.error);
    }
    var timestamps := sampled.value;
    var frames := [];
    for i := 0 to |timestamps|
      invariant frames == FramesOf(timestamps[..i], outputDir)
      invariant ExtractFrom(timestamps, outputDir, extract, 0) == ExtractFrom(timestamps, outputDir, extract, i)
    {
      if !extract(timestamps[i], FramePath(outputDir, i)) {
        return Err(FrameExtractionFailed(i));
      }
      frames := frames + [Frame(FramePath(outputDir, i), timestamps[i])];
    }
    assert timestamps[..|timestamps|] == timestamps;
    return Ok(frames);
  }

  /** Sampling succeeds exactly when the rate gives times and ffmpeg
      extracts every frame; the frames then sit in time order, one per
      sampling time, each in its own numbered file. */
  lemma SampledSpec(duration: real, samplesPerMinute: Config.Json, outputDir: string, extract: (real, string) -> bool)
    ensures var r := Sampled(duration, samplesPerMinute, outputDir, extract);
            var ts := Timestamps(duration, samplesPerMinute);
            && (r.Ok? <==> ts.Ok? && forall j :: 0 <= j < |ts.value| ==> Extracted(ts.value, outputDir, extract, j))
            && (r.Ok? ==> |r.value| == |ts.value| >= 1 &&
                          forall j :: 0 <= j < |r.value| ==> r.value[j] == Frame(FramePath(outputDir, j), ts.value[j]))
  {
    TimestampsSpec(duration, samplesPerMinute);
    var ts := Timestamps(duration, samplesPerMinute);
    if ts.Ok? {
      ExtractFromSpec(ts.value, outputDir, extract, 0);
    }
  }

  // ---------------------------------------------------------------------
  // parse_labels_file
  // ---------------------------------------------------------------------

  predicate IsLabel(line: string) {
    line != [] && !StartsWith(line, "#")
  }

  /** Every line with its surrounding whitespace removed. */
  function Stripped(lines: seq<string>): (r: seq<string>) {
    Map(lines, Strip)
  }

  /** `parse_labels_file` over the lines of the file. */
  method ParseLabelsFile(lines: seq<string>) returns (labels: seq<string>)
    ensures labels == Filter(Stripped(lines), IsLabel)
  {
    labels := [];
    for i := 0 to |lines|
      invariant labels == Filter(Stripped(lines[..i]), IsLabel)
    {
      var line := Strip(lines[i]);
      assert lines[..i + 1][..i] == lines[..i];
      FilterAppend(Stripped(lines[..i]), line, IsLabel);
      if line != [] && !StartsWith(line, "#") {
        labels := labels + [line];
      }
    }
    assert lines[..|lines|] == lines;
  }

  /** The labels are exactly the stripped lines that are neither blank
      nor comments. */
  lemma LabelsSpec(lines: seq<string>)
    ensures forall x :: x in Filter(Stripped(lines), IsLabel) <==>
                          IsLabel(x) && exists i :: 0 <= i < |lines| && Strip(lines[i]) == x
  {
    forall x ensures x in Filter(Stripped(lines), IsLabel) <==> IsLabel(x) && exists i :: 0 <= i < |lines| && Strip(lines[i]) == x {
      FilterMembers(Stripped(lines), IsLabel, x);
      MapMembers(lines, Strip, x);
    }
  }

  /** Each label is already stripped, and is no comment. */
  lemma LabelsStripped(lines: seq<string>)
    ensures forall x :: x in Filter(Stripped(lines), IsLabel) ==> Strip(x) == x && x != [] && x[0] != '#'
  {
    forall x | x in Filter(Stripped(lines), IsLabel) ensures Strip(x) == x && x != [] && x[0] != '#' {
      FilterMembers(Stripped(lines), IsLabel, x);
      StrippedLine(lines, x);
      assert x[..1] == [x[0]];
    }
  }

  lemma StrippedLine(lines: seq<string>, x: string)
    requires x in Stripped(lines)
    ensures Strip(x) == x
  {
    MapMembers(lines, Strip, x);
    var i :| 0 <= i < |lines| && Strip(lines[i]) == x;
    StripIdempotent(lines[i]);
  }

  // ---------------------------------------------------------------------
  // RemoteProcessor._windows_to_wsl_path
  // ---------------------------------------------------------------------

  /** `C:\Users\x` becomes `/mnt/c/Users/x`; other paths only have their
      backslashes turned into slashes. */
  function WindowsToWslPath(windowsPath: string): (r: string)
  {
    var path := ReplaceChar(windowsPath, '\\', '/');
    if |path| >= 2 && path[1] == ':' then "/mnt/" + [LowerChar(path[0])] + path[2..] else path
  }

  /** The result has no backslash; a path with a drive letter maps to
      `/mnt/<lowercase drive>` followed by the rest with slashes, any other
      path keeps its length; and a rewritten path is left alone. */
  lemma WslPathSpec(windowsPath: string)
    ensures var r := WindowsToWslPath(windowsPath);
            && '\\' !in r
            && (|windowsPath| >= 2 && windowsPath[1] == ':' ==>
                  && |r| == |windowsPath| + 4 && r[..5] == "/mnt/"
                  && (windowsPath[0] != '\\' ==> r[5] == LowerChar(windowsPath[0]))
                  && r[6..] == ReplaceChar(windowsPath[2..], '\\', '/'))
            && (!(|windowsPath| >= 2 && windowsPath[1] == ':') ==> |r| == |windowsPath|)
            && WindowsToWslPath(r) == r
  {
    var path := ReplaceChar(windowsPath, '\\', '/');
    var r := WindowsToWslPath(windowsPath);
    assert forall i :: 0 <= i < |path| ==> path[i] != '\\';
    if |path| >= 2 && path[1] == ':' {
      assert r[6..] == path[2..];
      assert path[2..] == ReplaceChar(windowsPath[2..], '\\', '/');
      assert r[1] == 'm';
    }
    assert forall i :: 0 <= i < |r| ==> r[i] != '\\';
    assert ReplaceChar(r, '\\', '/') == r;
  }

  // ---------------------------------------------------------------------
  // RemoteProcessor.process: which classified frames are kept
  // ---------------------------------------------------------------------

  datatype RunnerUp = RunnerUp(species: string, confidence: real)

  /** One frame's entry in `results.json`. */
  datatype FrameResult = FrameResult(species: string, confidence: real, runnersUp: Option<seq<RunnerUp>>)

  /** `Detection`. */
  datatype Detection = Detection(timestampS: real, species: string, confidence: real, runnersUp: seq<RunnerUp>)

  /** Frame `i` is kept when the results have an entry `str(i)` that is
      confident enough. */
  predicate Keeps(results: map<string, FrameResult>, minConfidence: real, i: nat) {
    NatToString(i) in results && results[NatToString(i)].confidence >= minConfidence
  }

  function ToDetection(frame: Frame, result: FrameResult): Detection {
    Detection(frame.timestamp, result.species, result.confidence,
              if result.runnersUp.Some? then result.runnersUp.value else [])
  }

  /** The detections made from the frames kept, in frame order. */
  function Kept(frames: seq<Frame>, results: map<string, FrameResult>, minConfidence: real): seq<Detection> {
    if frames == [] then []
    else
      var i := |frames| - 1;
      Kept(frames[..i], results, minConfidence)
        + if Keeps(results, minConfidence, i) then [ToDetection(frames[i], results[NatToString(i)])] else []
  }

  /** Some frame below `n` has an entry in the results. */
  predicate HasEntry(results: map<string, FrameResult>, n: nat) {
    exists i: nat :: i < n && NatToString(i) in results
  }

  /** `process`: no frames give no detections before anything remote is
      tried; otherwise the remote run either fails with its error output
      or gives the parsed results, which are filtered by the configured
      threshold.  A threshold that is not a number raises at the first
      frame that has an entry, and keeps nothing when there is none. */
  method Process(frames: seq<Frame>, remote: Result<map<string, FrameResult>, string>, minConfidence: Config.Json)
    returns (r: Result<seq<Detection>, SpeciesError>)
    ensures frames == [] ==> r == Ok([])
    ensures frames != [] && remote.Err? ==> r == Err(RemoteFailed(remote.error))
    ensures frames != [] && remote.Ok? && Config.IsNumber(minConfidence) ==>
              r == Ok(Kept(frames, remote.value, Config.ToReal(minConfidence)))
    ensures frames != [] && remote.Ok? && !Config.IsNumber(minConfidence) ==>
              r == if HasEntry(remote.value, |frames|) then Err(ConfidenceNotNumber) else Ok([])
  {
    if frames == [] {
      return Ok([]);
    }
    if remote.Err? {
      return Err(RemoteFailed(remote.error));
    }
    var results := remote.value;
    var detections: seq<Detection> := [];
    for i := 0 to |frames|
      invariant Config.IsNumber(minConfidence) ==> detections == Kept(frames[..i], results, Config.ToReal(minConfidence))
      invariant !Config.IsNumber(minConfidence) ==> detections == [] && !HasEntry(results, i)
    {
      assert frames[..i + 1][..i] == frames[..i];
      var key := NatToString(i);
      if key in results {
        if !Config.IsNumber(minConfidence) {
          assert HasEntry(results, |frames|);
          return Err(ConfidenceNotNumber);
        }
        var result := results[key];
        if result.confidence >= Config.ToReal(minConfidence) {
          detections := detections + [ToDetection(frames[i], result)];
        }
      }
    }
    assert frames[..|frames|] == frames;
    r := Ok(detections);
  }

  /** The detections come from the kept frames, exactly: `idx` lists the
      kept frames in increasing order, each detection takes its time from
      its frame and its species, confidence and runners-up (default none)
      from the frame's entry. */
  lemma {:induction false} KeptSpec(frames: seq<Frame>, results: map<string, FrameResult>, minConfidence: real)
    returns (idx: seq<nat>)
    ensures var ds := Kept(frames, results, minConfidence);
            && |idx| == |ds|
            && (forall k :: 0 <= k < |idx| ==> idx[k] < |frames| && Keeps(results, minConfidence, idx[k]))
            && (forall k, m :: 0 <= k < m < |idx| ==> idx[k] < idx[m])
            && (forall i :: 0 <= i < |frames| && Keeps(results, minConfidence, i) ==> i in idx)
            && (forall k :: 0 <= k < |idx| ==> ds[k] == ToDetection(frames[idx[k]], results[NatToString(idx[k])]))
  {
    if frames == [] {
      idx := [];
    } else {
      var n := |frames| - 1;
      var init := frames[..n];
      idx := KeptSpec(init, results, minConfidence);
      assert forall k :: 0 <= k < |idx| ==> frames[idx[k]] == init[idx[k]];
      if Keeps(results, minConfidence, n) {
        idx := idx + [n];
      }
    }
  }

  // ---------------------------------------------------------------------
  // aggregate_species_summary
  // ---------------------------------------------------------------------

  function SpeciesNames(ds: seq<Detection>): (r: seq<string>)
    ensures |r| == |ds| && forall i :: 0 <= i < |ds| ==> r[i] == ds[i].species
  {
    seq(|ds|, i requires 0 <= i < |ds| => ds[i].species)
  }

  /** The confidences of one species' detections, in detection order. */
  function Confidences(ds: seq<Detection>, species: string): seq<real> {
    if ds == [] then []
    else
      var d := ds[|ds| - 1];
      Confidences(ds[..|ds| - 1], species) + if d.species == species then [d.confidence] else []
  }

  /** A species and its confidences, as an item of `species_data`. */
  datatype SpeciesGroup = SpeciesGroup(species: string, confidences: seq<real>)

  function GroupsOf(names: seq<string>, ds: seq<Detection>): (r: seq<SpeciesGroup>)
    ensures |r| == |names|
    ensures forall k :: 0 <= k < |names| ==> r[k] == SpeciesGroup(names[k], Confidences(ds, names[k]))
  {
    seq(|names|, k requires 0 <= k < |names| => SpeciesGroup(names[k], Confidences(ds, names[k])))
  }

  /** `species_data`: one group per species, in order of first appearance. */
  function Groups(ds: seq<Detection>): seq<SpeciesGroup> {
    GroupsOf(Distinct(SpeciesNames(ds)), ds)
  }

  function Size(g: SpeciesGroup): real {
    |g.confidences| as real
  }

  /** Larger groups first; `sorted` is stable, so equal sizes keep their
      order. */
  function ByCountDescending(): (SpeciesGroup, SpeciesGroup) -> bool {
    (a: SpeciesGroup, b: SpeciesGroup) => |a.confidences| >= |b.confidences|
  }

  datatype SpeciesSummary = SpeciesSummary(species: string, count: nat, avgConfidence: real)

  function Summarise(g: SpeciesGroup): SpeciesSummary
    requires g.confidences != []
  {
    SpeciesSummary(g.species, |g.confidences|,
                   Round(SumOf(g.confidences, (c: real) => c) / |g.confidences| as real, 3))
  }

  /** The summary of a run, species by species. */
  function Aggregate(ds: seq<Detection>): (r: seq<SpeciesSummary>) {
    var sorted := SortBy(Groups(ds), ByCountDescending());
    GroupsNonEmpty(ds);
    SortPermutes(Groups(ds), ByCountDescending());
    assert forall k :: 0 <= k < |sorted| ==> sorted[k] in multiset(Groups(ds));
    Summaries(sorted)
  }

  function Summaries(groups: seq<SpeciesGroup>): seq<SpeciesSummary>
    requires forall k :: 0 <= k < |groups| ==> groups[k].confidences != []
  {
    seq(|groups|, k requires 0 <= k < |groups| => Summarise(groups[k]))
  }

  /** `aggregate_species_summary`: the dictionary of lists is filled in
      detection order, then the items are sorted by size and summarised. */
  method AggregateSpeciesSummary(ds: seq<Detection>) returns (summary: seq<SpeciesSummary>)
    ensures summary == Aggregate(ds)
  {
    var order, data := CollectSpecies(ds);
    var groups := SpeciesItems(order, data, ds);
    var sorted := SortBy(groups, ByCountDescending());
    GroupsNonEmpty(ds);
    SortPermutes(groups, ByCountDescending());
    assert forall k :: 0 <= k < |sorted| ==> sorted[k] in multiset(groups);
    summary := SummariseAll(sorted);
  }

  /** The loop building one summary per group, in order. */
  method SummariseAll(groups: seq<SpeciesGroup>) returns (summary: seq<SpeciesSummary>)
    requires forall k :: 0 <= k < |groups| ==> groups[k].confidences != []
    ensures summary == Summaries(groups)
  {
    summary := [];
    for k := 0 to |groups|
      invariant summary == Summaries(groups[..k])
    {
      assert groups[..k + 1][..k] == groups[..k];
      summary := summary + [Summarise(groups[k])];
    }
    assert groups[..|groups|] == groups;
  }

  /** `species_data.items()`: the groups in key order. */
  method SpeciesItems(order: seq<string>, data: map<string, seq<real>>, ds: seq<Detection>)
    returns (groups: seq<SpeciesGroup>)
    requires forall s :: s in order ==> s in data && data[s] == Confidences(ds, s)
    ensures groups == GroupsOf(order, ds)
  {
    groups := [];
    for k := 0 to |order|
      invariant groups == GroupsOf(order[..k], ds)
    {
      groups := groups + [SpeciesGroup(order[k], data[order[k]])];
    }
    assert order[..|order|] == order;
  }

  /** The loop filling `species_data`: `order` is the dictionary's key
      order, `data` its contents. */
  method CollectSpecies(ds: seq<Detection>) returns (order: seq<string>, data: map<string, seq<real>>)
    ensures order == Distinct(SpeciesNames(ds))
    ensures forall s :: s in data <==> s in order
    ensures forall s :: s in data ==> data[s] == Confidences(ds, s)
  {
    order := [];
    data := map[];
    for i := 0 to |ds|
      invariant order == Distinct(SpeciesNames(ds[..i]))
      invariant forall s :: s in data <==> s in order
      invariant forall s :: s in data ==> data[s] == Confidences(ds[..i], s)
    {
      var d := ds[i];
      CollectStep(ds, i);
      if d.species !in data {
        order := order + [d.species];
        data := data[d.species := []];
      }
      data := data[d.species := data[d.species] + [d.confidence]];
    }
    assert ds[..|ds|] == ds;
  }

  /** What one more detection does to the species order and the groups. */
  lemma CollectStep(ds: seq<Detection>, i: nat)
    requires i < |ds|
    ensures var names := Distinct(SpeciesNames(ds[..i]));
            var d := ds[i];
            && Distinct(SpeciesNames(ds[..i + 1])) == (if d.species in names then names else names + [d.species])
            && (forall s :: Confidences(ds[..i + 1], s) == Confidences(ds[..i], s) + if d.species == s then [d.confidence] else [])
            && (d.species !in names ==> Confidences(ds[..i], d.species) == [])
  {
    var d := ds[i];
    assert ds[..i + 1][..i] == ds[..i];
    var before := SpeciesNames(ds[..i]);
    assert SpeciesNames(ds[..i + 1]) == before + [d.species];
    assert (before + [d.species])[..i] == before;
    DistinctSpec(before);
    ConfidencesCount(ds[..i], d.species);
  }

  /** A species' group holds one confidence per detection of it. */
  lemma {:induction false} ConfidencesCount(ds: seq<Detection>, species: string)
    ensures |Confidences(ds, species)| == multiset(SpeciesNames(ds))[species]
  {
    if ds != [] {
      var init := ds[..|ds| - 1];
      ConfidencesCount(init, species);
      assert SpeciesNames(ds) == SpeciesNames(init) + [ds[|ds| - 1].species];
    }
  }

  /** Every group has at least one confidence. */
  lemma GroupsNonEmpty(ds: seq<Detection>)
    ensures forall g :: g in Groups(ds) ==> g.confidences != []
  {
    var names := Distinct(SpeciesNames(ds));
    DistinctSpec(SpeciesNames(ds));
    forall g | g in Groups(ds) ensures g.confidences != [] {
      var k :| 0 <= k < |names| && Groups(ds)[k] == g;
      ConfidencesCount(ds, names[k]);
      assert names[k] in names;
      assert names[k] in multiset(SpeciesNames(ds));
    }
  }

  /** Each species of the summary occurs once and every detected species
      has an entry; its count is its number of detections and its average
      the rounded mean of their confidences. */
  lemma AggregateEntries(ds: seq<Detection>)
    ensures var r := Aggregate(ds);
            && (forall i, j :: 0 <= i < j < |r| ==> r[i].species != r[j].species)
            && (forall s :: (exists k :: 0 <= k < |r| && r[k].species == s) <==> s in SpeciesNames(ds))
            && (forall k :: 0 <= k < |r| ==>
                  && r[k].count == multiset(SpeciesNames(ds))[r[k].species] >= 1
                  && r[k].avgConfidence == Round(SumOf(Confidences(ds, r[k].species), (c: real) => c) / r[k].count as real, 3))
  {
    var groups := Groups(ds);
    var names := Distinct(SpeciesNames(ds));
    var sorted := SortBy(groups, ByCountDescending());
    var r := Aggregate(ds);
    DistinctSpec(SpeciesNames(ds));
    SortPermutes(groups, ByCountDescending());
    GroupsNonEmpty(ds);
    forall k | 0 <= k < |r|
      ensures r[k].species in names && sorted[k] == SpeciesGroup(r[k].species, Confidences(ds, r[k].species))
    {
      assert sorted[k] in multiset(groups);
    }
    forall k | 0 <= k < |r|
      ensures r[k].count == multiset(SpeciesNames(ds))[r[k].species] >= 1
    {
      ConfidencesCount(ds, r[k].species);
    }
    forall s | s in SpeciesNames(ds) ensures exists k :: 0 <= k < |r| && r[k].species == s {
      EveryDetectedSpecies(ds, s);
    }
    forall i, j | 0 <= i < j < |r| ensures r[i].species != r[j].species {
      GroupOnce(sorted, groups, names, ds, i, j);
    }
  }

  /** A detected species has an entry in the summary. */
  lemma EveryDetectedSpecies(ds: seq<Detection>, s: string)
    requires s in SpeciesNames(ds)
    ensures exists k :: 0 <= k < |Aggregate(ds)| && Aggregate(ds)[k].species == s
  {
    var groups := Groups(ds);
    var names := Distinct(SpeciesNames(ds));
    var sorted := SortBy(groups, ByCountDescending());
    var r := Aggregate(ds);
    DistinctSpec(SpeciesNames(ds));
    SortPermutes(groups, ByCountDescending());
    var m :| 0 <= m < |names| && names[m] == s;
    assert groups[m] in multiset(sorted);
    var k :| 0 <= k < |sorted| && sorted[k] == groups[m];
    assert r[k].species == s;
  }

  /** Two positions of the sorted groups hold different species. */
  lemma GroupOnce(sorted: seq<SpeciesGroup>, groups: seq<SpeciesGroup>, names: seq<string>, ds: seq<Detection>, i: nat, j: nat)
    requires groups == GroupsOf(names, ds) && NoRepeats(names)
    requires multiset(sorted) == multiset(groups) && i < j < |sorted|
    ensures sorted[i].species != sorted[j].species
  {
    assert sorted[i] in multiset(groups) && sorted[j] in multiset(groups);
    var p :| 0 <= p < |groups| && groups[p] == sorted[i];
    var q :| 0 <= q < |groups| && groups[q] == sorted[j];
    assert sorted == sorted[..j] + sorted[j..];
    assert sorted[i] in sorted[..j] && sorted[j] in sorted[j..];
    assert multiset(sorted)[sorted[j]] >= multiset(sorted[..j])[sorted[j]] + 1;
    assert sorted[i] == sorted[j] ==> multiset(sorted)[sorted[j]] >= 2;
    DistinctOnce(names, names[p]);
    assert multiset(groups)[groups[p]] <= 1 by {
      GroupsOnce(names, ds, p);
    }
  }

  /** A group occurs once among the groups of distinct names. */
  lemma {:induction false} GroupsOnce(names: seq<string>, ds: seq<Detection>, p: nat)
    requires NoRepeats(names) && p < |names|
    ensures multiset(GroupsOf(names, ds))[GroupsOf(names, ds)[p]] <= 1
  {
    var gs := GroupsOf(names, ds);
    var g := gs[p];
    var n := |names| - 1;
    var init := names[..n];
    assert gs == GroupsOf(init, ds) + [gs[n]];
    if p < n {
      GroupsOnce(init, ds, p);
      assert gs[n] != g by {
        assert names[n] != names[p];
      }
    } else {
      forall k | 0 <= k < n ensures GroupsOf(init, ds)[k] != g {
        assert names[k] != names[n];
      }
      assert g !in GroupsOf(init, ds);
    }
  }

  /** Counts never increase along the summary, and groups of equal size
      keep the order of first appearance. */
  lemma AggregateOrder(ds: seq<Detection>)
    ensures var r := Aggregate(ds);
            var sorted := SortBy(Groups(ds), ByCountDescending());
            && (forall i, j :: 0 <= i < j < |r| ==> r[i].count >= r[j].count)
            && (forall g :: TiedWith(sorted, ByCountDescending(), g) == TiedWith(Groups(ds), ByCountDescending(), g))
  {
    var le := ByCountDescending();
    assert TotalPreorder(le);
    SortSorted(Groups(ds), le);
    forall g ensures TiedWith(SortBy(Groups(ds), le), le, g) == TiedWith(Groups(ds), le, g) {
      SortStable(Groups(ds), le, g);
    }
  }

  /** The counts add up to the number of detections. */
  lemma AggregateTotal(ds: seq<Detection>)
    ensures SumOf(Aggregate(ds), (e: SpeciesSummary) => e.count as real) == |ds| as real
  {
    var groups := Groups(ds);
    var sorted := SortBy(groups, ByCountDescending());
    var r := Aggregate(ds);
    SortPermutes(groups, ByCountDescending());
    SumPermutation(sorted, groups, Size);
    GroupsTotal(ds);
    SummaryCounts(sorted, r);
  }

  lemma {:induction false} SummaryCounts(groups: seq<SpeciesGroup>, r: seq<SpeciesSummary>)
    requires |r| == |groups| && forall k :: 0 <= k < |r| ==> r[k].count == |groups[k].confidences|
    ensures SumOf(r, (e: SpeciesSummary) => e.count as real) == SumOf(groups, Size)
  {
    if r != [] {
      SummaryCounts(groups[..|groups| - 1], r[..|r| - 1]);
    }
  }

  lemma {:induction false} GroupsTotal(ds: seq<Detection>)
    ensures SumOf(Groups(ds), Size) == |ds| as real
  {
    if ds != [] {
      var init := ds[..|ds| - 1];
      var d := ds[|ds| - 1];
      GroupsTotal(init);
      assert ds == init + [d];
      GroupsAfter(init, d);
    }
  }

  /** One more detection adds one to the total group size. */
  lemma GroupsAfter(ds: seq<Detection>, d: Detection)
    ensures SumOf(Groups(ds + [d]), Size) == SumOf(Groups(ds), Size) + 1.0
  {
    var names := Distinct(SpeciesNames(ds));
    assert (ds + [d])[..|ds|] == ds;
    assert SpeciesNames(ds + [d]) == SpeciesNames(ds) + [d.species];
    assert (SpeciesNames(ds) + [d.species])[..|ds|] == SpeciesNames(ds);
    DistinctSpec(SpeciesNames(ds));
    GroupsGrow(names, ds, d);
    if d.species in names {
      DistinctOnce(names, d.species);
    } else {
      NewGroup(names, ds, d);
    }
  }

  /** A detection of a new species adds a group of one. */
  lemma NewGroup(names: seq<string>, ds: seq<Detection>, d: Detection)
    requires names == Distinct(SpeciesNames(ds)) && d.species !in names
    ensures SumOf(GroupsOf(names + [d.species], ds + [d]), Size) == SumOf(GroupsOf(names, ds + [d]), Size) + 1.0
  {
    DistinctSpec(SpeciesNames(ds));
    ConfidencesCount(ds, d.species);
    assert (ds + [d])[..|ds|] == ds;
    assert Confidences(ds + [d], d.species) == Confidences(ds, d.species) + [d.confidence];
    var gs := GroupsOf(names + [d.species], ds + [d]);
    assert gs[..|names|] == GroupsOf(names, ds + [d]);
  }

  /** One more detection adds one to the group sizes of its species. */
  lemma {:induction false} GroupsGrow(names: seq<string>, ds: seq<Detection>, d: Detection)
    ensures SumOf(GroupsOf(names, ds + [d]), Size) == SumOf(GroupsOf(names, ds), Size) + multiset(names)[d.species] as real
  {
    if names != [] {
      var n := |names| - 1;
      GroupsGrow(names[..n], ds, d);
      assert GroupsOf(names, ds + [d])[..n] == GroupsOf(names[..n], ds + [d]);
      assert GroupsOf(names, ds)[..n] == GroupsOf(names[..n], ds);
      assert (ds + [d])[..|ds|] == ds;
      assert names == names[..n] + [names[n]];
    }
  }

  // ---------------------------------------------------------------------
  // identify_species
  // ---------------------------------------------------------------------

  datatype SpeciesError =
    | HighlightsNotFound           // ValueError: no highlights video
    | RemoteNotConfigured          // ValueError: mode "remote" without remote settings
    | RemoteUnreachable(host: Config.Json)  // RuntimeError: the connection check failed
    | LocalDisabled                // ValueError: mode "local"
    | CloudNotImplemented          // ValueError: mode "cloud"
    | Sampling(error: SamplingError)  // sampling the frames failed
    | RemoteRequired               // AssertionError: any other mode has no remote settings
    | RemoteFailed(stderr: string) // RuntimeError: the remote inference failed
    | ConfidenceNotNumber          // TypeError: comparing a confidence with a threshold that is not a number

  /** The checks `identify_species` makes before sampling: the error it
      raises, if any. */
  function CheckMode(config: Config.SpeciesConfig, highlightsExist: bool, connected: bool): (r: Option<SpeciesError>)
  {
    if !highlightsExist then Some(HighlightsNotFound)
    else if config.processingMode == Config.JStr("remote") then
      if config.remote.None? then Some(RemoteNotConfigured)
      else if !connected then Some(RemoteUnreachable(config.remote.value.host))
      else None
    else if config.processingMode == Config.JStr("local") then Some(LocalDisabled)
    else if config.processingMode == Config.JStr("cloud") then Some(CloudNotImplemented)
    else None
  }

  /** The checks pass only with a highlights video and never in mode
      "local" or "cloud"; in mode "remote" they also need remote settings
      and the host to answer.  Each error is reported for exactly its
      cause.  A configuration read from the file has remote settings only
      in mode "remote". */
  lemma CheckModeSpec(config: Config.SpeciesConfig, highlightsExist: bool, connected: bool, file: Config.ConfigFile, home: string)
    ensures var r := CheckMode(config, highlightsExist, connected);
            && (r.None? <==> highlightsExist &&
                             config.processingMode != Config.JStr("local") && config.processingMode != Config.JStr("cloud") &&
                             (config.processingMode == Config.JStr("remote") ==> config.remote.Some? && connected))
            && (r == Some(HighlightsNotFound) <==> !highlightsExist)
            && (r == Some(LocalDisabled) <==> highlightsExist && config.processingMode == Config.JStr("local"))
            && (r == Some(CloudNotImplemented) <==> highlightsExist && config.processingMode == Config.JStr("cloud"))
            && (r == Some(RemoteNotConfigured) <==> highlightsExist && config.processingMode == Config.JStr("remote") && config.remote.None?)
            && (r.Some? && r.value.RemoteUnreachable? <==>
                  highlightsExist && config.processingMode == Config.JStr("remote") && config.remote.Some? && !connected)
    ensures var loaded := Config.GetSpeciesConfig(file, home);
            loaded.Some? && loaded.value.processingMode != Config.JStr("remote") ==> loaded.value.remote.None?
  {
    var loaded := Config.GetSpeciesConfig(file, home);
    if loaded.Some? {
      var config := Config.LoadConfig(file);
      var species := Config.Get(config, "species", Config.EmptyObject).value;
      var processing := Config.Get(species, "processing", Config.EmptyObject).value;
      assert loaded.value.remote == Config.RemoteSettings(Config.RemoteOf(processing.fields));
      assert loaded.value.processingMode == Config.Get(processing, "mode", Config.JStr("local")).value;
    }
  }

  datatype SpeciesResults = SpeciesResults(
    processingMode: Config.Json, highlightsDurationS: real, samplesPerMinute: Config.Json,
    totalFrames: nat, speciesSummary: seq<SpeciesSummary>, detections: seq<Detection>)

  /** `identify_species` given the video's duration, ffmpeg's success per
      frame and the remote run's outcome: check, sample, require remote
      settings, keep the confident frames, summarise. */
  method IdentifySpecies(config: Config.SpeciesConfig, highlightsExist: bool, connected: bool, duration: real,
                         tempDir: string, extract: (real, string) -> bool,
                         remote: Result<map<string, FrameResult>, string>)
    returns (r: Result<SpeciesResults, SpeciesError>)
    ensures CheckMode(config, highlightsExist, connected).Some? ==> r == Err(CheckMode(config, highlightsExist, connected).value)
    ensures CheckMode(config, highlightsExist, connected).None? ==>
              var sampled := Sampled(duration, config.samplesPerMinute, tempDir, extract);
              && (sampled.Err? ==> r == Err(Sampling(sampled.error)))
              && (sampled.Ok? && config.remote.None? ==> r == Err(RemoteRequired))
              && (sampled.Ok? && config.remote.Some? && remote.Err? ==> r == Err(RemoteFailed(remote.error)))
              && (sampled.Ok? && config.remote.Some? && remote.Ok? ==>
                    var frames := sampled.value;
                    if Config.IsNumber(config.minConfidence) then
                      var detections := Kept(frames, remote.value, Config.ToReal(config.minConfidence));
                      r == Ok(SpeciesResults(config.processingMode, Round(duration, 1), config.samplesPerMinute,
                                             |frames|, Aggregate(detections), detections))
                    else if HasEntry(remote.value, |frames|) then r == Err(ConfidenceNotNumber)
                    else r == Ok(SpeciesResults(config.processingMode, Round(duration, 1), config.samplesPerMinute,
                                                |frames|, [], [])))
    ensures r.Ok? ==> config.remote.Some? && r.value.totalFrames >= 1
  {
    var check := CheckMode(config, highlightsExist, connected);
    if check.Some? {
      return Err(check.value);
    }
    var sampled := SampleFramesFromVideo(duration, config.samplesPerMinute, tempDir, extract);
    if sampled.Err? {
      return Err(Sampling(sampled.error));
    }
    if config.remote.None? {
      return Err(RemoteRequired);
    }
    var frames := sampled.value;
    SampledSpec(duration, config.samplesPerMinute, tempDir, extract);
    var processed := Process(frames, remote, config.minConfidence);
    if processed.Err? {
      return Err(processed.error);
    }
    var detections := processed.value;
    var summary := AggregateSpeciesSummary(detections);
    r := Ok(SpeciesResults(config.processingMode, Round(duration, 1), config.samplesPerMinute,
                           |frames|, summary, detections));
  }
}
