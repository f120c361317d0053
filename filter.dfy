/** Clip filtering: run the bird detector over each clip of a directory,
    link the clips with a bird into the filter directory, count both kinds
    and record when and how surely each bird was first seen.  The detector
    is an input giving each clip's scan outcome; the links that already
    exist are an input too. */
module ClipFilter {
  import opened Prelude
  import opened Seqs
  import opened Numbers
  import opened Text
  import Detector

  /** The entry of `detections.json` for one clip. */
  datatype ClipDetection = ClipDetection(firstBird: real, confidence: real)

  /** The counters and records of `filter_clips` after some clips. */
  datatype Tally = Tally(
    total: nat, withBirds: nat, filteredOut: nat,
    detections: map<string, ClipDetection>, linked: seq<string>)

  /** The clip scan raised (a frame rate of 0), naming the clip. */
  datatype FilterError = ZeroFrameRate(clip: string)

  /** The bookkeeping for one clip. */
  function Step(tally: Tally, clip: string, outcome: Detector.VideoOutcome, existing: set<string>): Tally
    requires !outcome.ZeroFrameRate?
  {
    match outcome
    case Found(d) =>
      Tally(tally.total, tally.withBirds + 1, tally.filteredOut,
            tally.detections[clip := ClipDetection(d.timestamp, Round(d.confidence, 3))],
            if clip in existing || clip in tally.linked then tally.linked else tally.linked + [clip])
    case NotFound =>
      Tally(tally.total, tally.withBirds, tally.filteredOut + 1, tally.detections, tally.linked)
  }

  /** The bookkeeping after the given clips, or the first clip whose scan
      raised. */
  function Run(clips: seq<string>, detect: string -> Detector.VideoOutcome, existing: set<string>): Result<Tally, FilterError> {
    if clips == [] then Ok(Tally(0, 0, 0, map[], []))
    else
      var clip := clips[|clips| - 1];
      match Run(clips[..|clips| - 1], detect, existing)
      case Err(e) => Err(e)
      case Ok(tally) =>
        if detect(clip).ZeroFrameRate? then Err(ZeroFrameRate(clip))
        else
          var next := Step(tally, clip, detect(clip), existing);
          Ok(next.(total := |clips|))
  }

  /** `filter_clips` over a directory listing: `existing` holds the names
      already present in the clips directory, `detect` the scan outcome of
      each clip. */
  method FilterClips(listing: seq<string>, limit: Option<int>, detect: string -> Detector.VideoOutcome, existing: set<string>)
    returns (r: Result<Tally, FilterError>)
    ensures r == Run(ClipNames(listing, limit), detect, existing)
  {
    var clips := ClipNames(listing, limit);
    var withBirds, filteredOut := 0, 0;
    var detections: map<string, ClipDetection> := map[];
    var linked: seq<string> := [];
    for i := 0 to |clips|
      invariant Run(clips[..i], detect, existing) == Ok(Tally(i, withBirds, filteredOut, detections, linked))
    {
      assert clips[..i + 1][..i] == clips[..i];
      var clip := clips[i];
      var detection := detect(clip);
      if detection.ZeroFrameRate? {
        assert Run(clips, detect, existing) == Err(ZeroFrameRate(clip)) by {
          RunFailsAfter(clips, detect, existing, i + 1);
        }
        return Err(ZeroFrameRate(clip));
      }
      if detection.Found? {
        withBirds := withBirds + 1;
        if !(clip in existing || clip in linked) {
          linked := linked + [clip];
        }
        detections := detections[clip := ClipDetection(detection.detection.timestamp, Round(detection.detection.confidence, 3))];
      } else {
        filteredOut := filteredOut + 1;
      }
    }
    assert clips[..|clips|] == clips;
    r := Ok(Tally(|clips|, withBirds, filteredOut, detections, linked));
  }

  /** Once a prefix of the clips fails, the whole run fails the same way. */
  lemma {:induction false} RunFailsAfter(clips: seq<string>, detect: string -> Detector.VideoOutcome, existing: set<string>, n: nat)
    requires 0 < n <= |clips| && Run(clips[..n - 1], detect, existing).Ok? && detect(clips[n - 1]).ZeroFrameRate?
    ensures Run(clips, detect, existing) == Err(ZeroFrameRate(clips[n - 1]))
    decreases |clips|
  {
    if n == |clips| {
      assert clips[..|clips| - 1] == clips[..n - 1];
    } else {
      var init := clips[..|clips| - 1];
      assert init[..n - 1] == clips[..n - 1] && init[n - 1] == clips[n - 1];
      RunFailsAfter(init, detect, existing, n);
    }
  }

  /** After a successful run: `total` is the number of clips and every
      clip is counted once, with a bird or filtered out; the recorded
      clips are exactly those where a bird was found, each with the time
      of the first sighting and its confidence rounded to 3 places; and
      the links made are the bird clips not already present, in clip
      order. */
  lemma {:induction false} RunSpec(clips: seq<string>, detect: string -> Detector.VideoOutcome, existing: set<string>)
    requires Run(clips, detect, existing).Ok?
    ensures var t := Run(clips, detect, existing).value;
            && t.total == |clips|
            && t.withBirds + t.filteredOut == t.total
            && (forall c :: c in t.detections <==> c in clips && detect(c).Found?)
            && (forall c :: c in t.detections ==>
                  t.detections[c] == ClipDetection(detect(c).detection.timestamp, Round(detect(c).detection.confidence, 3)))
            && (forall c :: c in t.linked <==> c in clips && detect(c).Found? && c !in existing)
            && (forall i, j :: 0 <= i < j < |t.linked| ==> t.linked[i] != t.linked[j])
    decreases |clips|
  {
    if clips != [] {
      var init := clips[..|clips| - 1];
      var clip := clips[|clips| - 1];
      RunSpec(init, detect, existing);
      assert forall c :: c in clips <==> c in init || c == clip by {
        assert clips == init + [clip];
      }
    }
  }

  /** With no bird anywhere nothing is recorded and nothing is linked, so
      an empty map is written. */
  lemma NoBirds(clips: seq<string>, detect: string -> Detector.VideoOutcome, existing: set<string>)
    requires forall c :: c in clips ==> detect(c).NotFound?
    ensures Run(clips, detect, existing) == Ok(Tally(|clips|, 0, |clips|, map[], []))
  {
    NoBirdsUpTo(clips, detect, existing, |clips|);
    assert clips[..|clips|] == clips;
  }

  lemma {:induction false} NoBirdsUpTo(clips: seq<string>, detect: string -> Detector.VideoOutcome, existing: set<string>, n: nat)
    requires n <= |clips| && forall c :: c in clips ==> detect(c).NotFound?
    ensures Run(clips[..n], detect, existing) == Ok(Tally(n, 0, n, map[], []))
  {
    if n > 0 {
      NoBirdsUpTo(clips, detect, existing, n - 1);
      assert clips[..n][..n - 1] == clips[..n - 1];
      assert clips[..n][n - 1] in clips;
    }
  }
}
