/** Bird detection decisions: which box of a model's output counts as a
    bird (or a person, often a close-up bird), and which frames of a clip
    are sampled.  The object detector itself is an input: for each frame,
    the list of results it returns, each with its boxes or without. */
module Detector {
  import opened Prelude
  import opened Numbers

  /** COCO class ids. */
  const BirdClassId := 14
  const PersonClassId := 0

  datatype Kind = Bird | Person

  datatype Detection = Detection(timestamp: real, kind: Kind, confidence: real)

  /** One detected box: its class id (already converted with `int`) and
      its confidence. */
  datatype Box = Box(cls: int, conf: real)

  /** The detector's output for one frame: a result per image, whose boxes
      may be missing. */
  type FrameResults = seq<Option<seq<Box>>>

  datatype Thresholds = Thresholds(bird: real, person: real)

  /** The default thresholds of `BirdDetector`. */
  const DefaultThresholds := Thresholds(0.2, 0.3)

  /** The kind a box qualifies as: a bird box at or above the bird
      threshold, a person box at or above the person threshold. */
  function Classify(b: Box, t: Thresholds): (r: Option<Kind>)
    ensures r == Some(Bird) <==> b.cls == BirdClassId && b.conf >= t.bird
    ensures r == Some(Person) <==> b.cls == PersonClassId && b.conf >= t.person
  {
    if b.cls == BirdClassId && b.conf >= t.bird then Some(Bird)
    else if b.cls == PersonClassId && b.conf >= t.person then Some(Person)
    else None
  }

  /** The boxes of a frame in the order they are scanned, skipping results
      without boxes. */
  function Boxes(results: FrameResults): seq<Box> {
    if results == [] then []
    else (if results[0].Some? then results[0].value else []) + Boxes(results[1..])
  }

  /** The scan of `detect_in_frame_detailed` over a list of boxes. */
  function FirstQualifying(boxes: seq<Box>, t: Thresholds, timestamp: real): Option<Detection> {
    if boxes == [] then None
    else
      match Classify(boxes[0], t)
      case Some(kind) => Some(Detection(timestamp, kind, boxes[0].conf))
      case None => FirstQualifying(boxes[1..], t, timestamp)
  }

  /** `detect_in_frame_detailed`. */
  function DetectInFrameDetailed(results: FrameResults, t: Thresholds, timestamp: real): Option<Detection> {
    FirstQualifying(Boxes(results), t, timestamp)
  }

  /** `detect_in_frame`. */
  function DetectInFrame(results: FrameResults, t: Thresholds): bool {
    DetectInFrameDetailed(results, t, 0.0).Some?
  }

  /** The scan finds nothing exactly when no box qualifies; otherwise it
      reports the first qualifying box, whatever the boxes after it. */
  lemma {:induction false} FirstQualifyingSpec(boxes: seq<Box>, t: Thresholds, timestamp: real) returns (i: nat)
    ensures var r := FirstQualifying(boxes, t, timestamp);
            && (r.None? <==> forall j :: 0 <= j < |boxes| ==> Classify(boxes[j], t).None?)
            && (r.Some? ==>
                  && i < |boxes|
                  && (forall j :: 0 <= j < i ==> Classify(boxes[j], t).None?)
                  && Classify(boxes[i], t) == Some(r.value.kind)
                  && r.value == Detection(timestamp, r.value.kind, boxes[i].conf))
  {
    i := 0;
    if boxes != [] && Classify(boxes[0], t).None? {
      var k := FirstQualifyingSpec(boxes[1..], t, timestamp);
      if FirstQualifying(boxes, t, timestamp).Some? {
        i := k + 1;
      }
      forall j | 0 < j < |boxes| ensures boxes[j] == boxes[1..][j - 1] {}
    }
  }

  /** Every box of a result with boxes is scanned, results in order and
      boxes in order within a result. */
  lemma {:induction false} BoxesConcat(a: FrameResults, b: FrameResults)
    ensures Boxes(a + b) == Boxes(a) + Boxes(b)
  {
    if a != [] {
      assert (a + b)[0] == a[0] && (a + b)[1..] == a[1..] + b;
      BoxesConcat(a[1..], b);
    } else {
      assert a + b == b;
    }
  }

  /** A frame counts as showing a bird exactly when the detailed scan
      reports something. */
  lemma DetectInFrameMeaning(results: FrameResults, t: Thresholds)
    ensures DetectInFrame(results, t) <==> exists j :: 0 <= j < |Boxes(results)| && Classify(Boxes(results)[j], t).Some?
  {
    var i := FirstQualifyingSpec(Boxes(results), t, 0.0);
    if DetectInFrame(results, t) {
      assert Classify(Boxes(results)[i], t).Some?;
    }
  }

  // ---------------------------------------------------------------------
  // detect_in_video_detailed: the sampling schedule
  // ---------------------------------------------------------------------

  function Max1(n: int): int { if n < 1 then 1 else n }

  /** The sampling interval at frame `f`: about four samples in the first
      second, then one a second. */
  function Interval(f: nat, fps: real): (r: int)
    ensures r >= 1
  {
    if f < Trunc(fps) then Max1(Trunc(fps / 4.0)) else Max1(Trunc(fps))
  }

  predicate Probed(f: nat, fps: real) {
    f % Interval(f, fps) == 0
  }

  /** What the frame loop ends in.  A frame rate of 0 makes the timestamp
      of the first sampled frame a division by zero. */
  datatype VideoOutcome = Found(detection: Detection) | NotFound | ZeroFrameRate

  /** The outcome of scanning the frames from `f` on. */
  function ScanFrom(frames: seq<FrameResults>, fps: real, t: Thresholds, f: nat): VideoOutcome
    requires f <= |frames|
    decreases |frames| - f
  {
    if f == |frames| then NotFound
    else if Probed(f, fps) then
      if fps == 0.0 then ZeroFrameRate
      else
        match DetectInFrameDetailed(frames[f], t, f as real / fps)
        case Some(d) => Found(d)
        case None => ScanFrom(frames, fps, t, f + 1)
    else ScanFrom(frames, fps, t, f + 1)
  }

  /** `detect_in_video_detailed`: `opens` says whether the clip opens,
      `frames` holds the detector's output for each frame read, in order. */
  method DetectInVideoDetailed(opens: bool, fps: real, frames: seq<FrameResults>, t: Thresholds)
    returns (r: VideoOutcome)
    ensures r == if opens then ScanFrom(frames, fps, t, 0) else NotFound
  {
    if !opens {
      return NotFound;
    }
    var firstSecondFrames := Trunc(fps);
    var earlyInterval := Max1(Trunc(fps / 4.0));
    var lateInterval := Max1(Trunc(fps));
    var frameCount := 0;
    while frameCount < |frames|
      invariant 0 <= frameCount <= |frames|
      invariant ScanFrom(frames, fps, t, 0) == ScanFrom(frames, fps, t, frameCount)
      decreases |frames| - frameCount
    {
      var interval := if frameCount < firstSecondFrames then earlyInterval else lateInterval;
      if frameCount % interval == 0 {
        if fps == 0.0 {
          return ZeroFrameRate;
        }
        var detection := DetectInFrameDetailed(frames[frameCount], t, frameCount as real / fps);
        if detection.Some? {
          return Found(detection.value);
        }
      }
      frameCount := frameCount + 1;
    }
    return NotFound;
  }

  /** The exception `detect_in_video` passes on from the scan. */
  datatype DetectorError = ZeroDivision

  /** `detect_in_video`: whether the clip shows a bird.  It raises exactly
      when the clip opens at a frame rate of 0 and has a frame to read,
      since frame 0 is always sampled and its timestamp divides by the
      rate; otherwise the answer is whether the scan found a detection. */
  method DetectInVideo(opens: bool, fps: real, frames: seq<FrameResults>, t: Thresholds)
    returns (r: Result<bool, DetectorError>)
    ensures r.Err? <==> opens && fps == 0.0 && frames != []
    ensures r.Ok? ==> (r.value <==> opens && ScanFrom(frames, fps, t, 0).Found?)
  {
    var outcome := DetectInVideoDetailed(opens, fps, frames, t);
    if opens && fps != 0.0 {
      var _ := ScanSpec(frames, fps, t, 0);
    }
    if outcome.ZeroFrameRate? {
      return Err(ZeroDivision);
    }
    return Ok(outcome.Found?);
  }

  /** The scan reports the detection of the lowest-numbered sampled frame
      that has one, stamped with its time `f / fps`, and finds nothing
      only when no sampled frame has one. */
  lemma {:induction false} ScanSpec(frames: seq<FrameResults>, fps: real, t: Thresholds, from: nat) returns (f: nat)
    requires from <= |frames| && fps != 0.0
    ensures var r := ScanFrom(frames, fps, t, from);
            && r != ZeroFrameRate
            && (r.NotFound? <==>
                  forall g :: from <= g < |frames| && Probed(g, fps) ==> DetectInFrameDetailed(frames[g], t, g as real / fps).None?)
            && (r.Found? ==>
                  && from <= f < |frames| && Probed(f, fps)
                  && Some(r.detection) == DetectInFrameDetailed(frames[f], t, f as real / fps)
                  && r.detection.timestamp == f as real / fps
                  && forall g :: from <= g < f && Probed(g, fps) ==> DetectInFrameDetailed(frames[g], t, g as real / fps).None?)
    decreases |frames| - from
  {
    f := from;
    if from < |frames| {
      var here := Probed(from, fps) && DetectInFrameDetailed(frames[from], t, from as real / fps).Some?;
      if here {
        var _ := FirstQualifyingSpec(Boxes(frames[from]), t, from as real / fps);
      } else {
        f := ScanSpec(frames, fps, t, from + 1);
      }
    }
  }

  /** From a frame rate of one on, any run of `max(1, int(fps))`
      consecutive frames holds a sampled frame, so sampling never skips
      more than about a second. */
  lemma SamplingCoverage(fps: real, f: nat) returns (g: nat)
    requires fps >= 1.0
    ensures g <= f < g + Max1(Trunc(fps)) && Probed(g, fps)
  {
    var second := Trunc(fps);
    if f < second {
      g := RoundDown(f, Interval(f, fps));
    } else {
      g := RoundDown(f, second);
    }
  }

  /** The last multiple of `k` at or below `f`. */
  lemma {:induction false} RoundDown(f: nat, k: int) returns (g: nat)
    requires k >= 1
    ensures g <= f < g + k && g % k == 0 && (f >= k ==> g >= k)
    decreases f
  {
    if f < k {
      g := 0;
    } else {
      var h := RoundDown(f - k, k);
      g := h + k;
      ModUnique(h, k, h / k, 0);
      ModUnique(g, k, h / k + 1, 0);
    }
  }

  /** The remainder is the unique `r` in `0..k` with `x == q * k + r`. */
  lemma ModUnique(x: int, k: int, q: int, r: int)
    requires k >= 1 && 0 <= r < k && x == q * k + r
    ensures x % k == r
  {
    var d := q - x / k;
    assert x == k * (x / k) + x % k;
    assert k * d == x % k - r;
    if d >= 1 {
      MulAtLeast(k, d);
    } else if d <= -1 {
      MulAtLeast(k, -d);
      assert k * d == -(k * -d);
    }
  }

  lemma MulAtLeast(k: int, d: int)
    requires k >= 1 && d >= 1
    ensures k * d >= k
  {
    assert k * d == k * (d - 1) + k;
  }
}
