/** Frame scoring: for each clip with a bird, the frame at the first
    sighting is measured for sharpness, for the size of the largest bird
    box and for how clear of the frame's edges a bird is; the measures are
    normalised to [0, 1], combined with weights and ranked.  Decoding a
    frame, its sharpness and the detector's boxes are inputs. */
module Frames {
  import opened Prelude
  import opened Seqs
  import opened Numbers
  import opened Text
  import Detector
  import ClipFilter

  /** A detector box in corner form (x1, y1, x2, y2), with its class id and
      confidence. */
  datatype BoxXY = BoxXY(cls: int, conf: real, x1: real, y1: real, x2: real, y2: real)

  /** What the detector returns for one frame: a list of results, each with
      boxes or without (`boxes is None`). */
  type ModelOutput = seq<Option<seq<BoxXY>>>

  function BoxesOf(result: Option<seq<BoxXY>>): seq<BoxXY> {
    if result.Some? then result.value else []
  }

  /** The boxes of all results, in the order the loops visit them. */
  function AllBoxes(output: ModelOutput): seq<BoxXY> {
    if output == [] then []
    else AllBoxes(output[..|output| - 1]) + BoxesOf(output[|output| - 1])
  }

  /** A box the pipeline counts as a bird: the bird class at the bird
      confidence threshold or above. */
  predicate IsBird(b: BoxXY, birdConfidence: real) {
    b.cls == Detector.BirdClassId && b.conf >= birdConfidence
  }

  function MaxReal(a: real, b: real): real {
    if a >= b then a else b
  }

  // ---------------------------------------------------------------------
  // calculate_bird_size
  // ---------------------------------------------------------------------

  /** The share of the frame a box covers. */
  function Ratio(b: BoxXY, frameArea: real): real
    requires frameArea > 0.0
  {
    (b.x2 - b.x1) * (b.y2 - b.y1) / frameArea
  }

  /** The running maximum of the bird boxes' ratios, starting from 0. */
  function BirdSize(boxes: seq<BoxXY>, birdConfidence: real, frameArea: real): real
    requires frameArea > 0.0
  {
    if boxes == [] then 0.0
    else
      var b := boxes[|boxes| - 1];
      var m := BirdSize(boxes[..|boxes| - 1], birdConfidence, frameArea);
      if IsBird(b, birdConfidence) then MaxReal(m, Ratio(b, frameArea)) else m
  }

  /** The bird size is at least 0 and at least every bird box's ratio; a
      positive size is the ratio of a bird box, returned as `w`. */
  lemma {:induction false} BirdSizeSpec(boxes: seq<BoxXY>, birdConfidence: real, frameArea: real)
    returns (w: nat)
    requires frameArea > 0.0
    ensures BirdSize(boxes, birdConfidence, frameArea) >= 0.0
    ensures forall i :: 0 <= i < |boxes| && IsBird(boxes[i], birdConfidence) ==>
              Ratio(boxes[i], frameArea) <= BirdSize(boxes, birdConfidence, frameArea)
    ensures BirdSize(boxes, birdConfidence, frameArea) > 0.0 ==>
              w < |boxes| && IsBird(boxes[w], birdConfidence) &&
              Ratio(boxes[w], frameArea) == BirdSize(boxes, birdConfidence, frameArea)
  {
    if boxes == [] {
      w := 0;
    } else {
      var n := |boxes| - 1;
      var init := boxes[..n];
      w := BirdSizeSpec(init, birdConfidence, frameArea);
      var m := BirdSize(init, birdConfidence, frameArea);
      assert forall i :: 0 <= i < n ==> boxes[i] == init[i];
      if IsBird(boxes[n], birdConfidence) && Ratio(boxes[n], frameArea) > m {
        w := n;
      }
    }
  }

  /** `calculate_bird_size` over the detector's output for a frame of the
      given size. */
  method CalculateBirdSize(output: ModelOutput, birdConfidence: real, width: int, height: int) returns (ratio: real)
    requires width > 0 && height > 0
    ensures ratio == BirdSize(AllBoxes(output), birdConfidence, (width * height) as real)
  {
    if |output| == 0 {
      return 0.0;
    }
    var frameArea := (width * height) as real;
    ratio := 0.0;
    for i := 0 to |output|
      invariant ratio == BirdSize(AllBoxes(output[..i]), birdConfidence, frameArea)
    {
      assert output[..i + 1][..i] == output[..i];
      ghost var before := AllBoxes(output[..i]);
      assert before + [] == before;
      if output[i].Some? && |output[i].value| != 0 {
        ratio := ScanBirdSizes(output[i].value, birdConfidence, frameArea, before, ratio);
      }
    }
    assert output[..|output|] == output;
  }

  /** The inner loop of `calculate_bird_size`, over one result's boxes,
      continuing from the ratio of the boxes `before` them. */
  method ScanBirdSizes(boxes: seq<BoxXY>, birdConfidence: real, frameArea: real, ghost before: seq<BoxXY>, ratio0: real)
    returns (ratio: real)
    requires frameArea > 0.0
    requires ratio0 == BirdSize(before, birdConfidence, frameArea)
    ensures ratio == BirdSize(before + boxes, birdConfidence, frameArea)
  {
    ratio := ratio0;
    assert before + [] == before;
    for j := 0 to |boxes|
      invariant ratio == BirdSize(before + boxes[..j], birdConfidence, frameArea)
    {
      assert (before + boxes[..j + 1])[..|before| + j] == before + boxes[..j];
      var box := boxes[j];
      if box.cls == Detector.BirdClassId && box.conf >= birdConfidence {
        var bboxRatio := Ratio(box, frameArea);
        ratio := MaxReal(ratio, bboxRatio);
      }
    }
    assert boxes[..|boxes|] == boxes;
  }

  // ---------------------------------------------------------------------
  // calculate_position
  // ---------------------------------------------------------------------

  /** Pixels from the left, right and top edges within which a box counts
      as touching the edge. */
  const EdgeThreshold: real := 10.0

  /** A box clear of the left, right and top edges; the bottom edge, where
      a perch is, does not matter. */
  predicate ClearOfEdges(b: BoxXY, width: real) {
    b.x1 > EdgeThreshold && b.x2 < width - EdgeThreshold && b.y1 > EdgeThreshold
  }

  /** A bird box's position score: 0.3 when it touches an edge, else 1.0. */
  function BoxPosition(b: BoxXY, width: real): real {
    var touchesLeft := b.x1 <= EdgeThreshold;
    var touchesRight := b.x2 >= width - EdgeThreshold;
    var touchesTop := b.y1 <= EdgeThreshold;
    if touchesLeft || touchesRight || touchesTop then 0.3 else 1.0
  }

  /** The best position score over the bird boxes, starting from 0. */
  function Position(boxes: seq<BoxXY>, birdConfidence: real, width: real): real {
    if boxes == [] then 0.0
    else
      var b := boxes[|boxes| - 1];
      var m := Position(boxes[..|boxes| - 1], birdConfidence, width);
      if IsBird(b, birdConfidence) then MaxReal(m, BoxPosition(b, width)) else m
  }

  /** The position score is 0, 0.3 or 1.0: 0 exactly when there is no bird
      box, 1.0 exactly when some bird box is clear of the edges, and so
      0.3 when there are birds and all of them touch an edge. */
  lemma {:induction false} PositionSpec(boxes: seq<BoxXY>, birdConfidence: real, width: real)
    ensures var r := Position(boxes, birdConfidence, width);
            && (r == 0.0 || r == 0.3 || r == 1.0)
            && (r == 0.0 <==> forall i :: 0 <= i < |boxes| ==> !IsBird(boxes[i], birdConfidence))
            && (r == 1.0 <==> exists i :: 0 <= i < |boxes| && IsBird(boxes[i], birdConfidence) && ClearOfEdges(boxes[i], width))
  {
    if boxes != [] {
      var n := |boxes| - 1;
      var init := boxes[..n];
      PositionSpec(init, birdConfidence, width);
      assert forall i :: 0 <= i < n ==> boxes[i] == init[i];
      if IsBird(boxes[n], birdConfidence) && ClearOfEdges(boxes[n], width) {
        assert IsBird(boxes[n], birdConfidence) && ClearOfEdges(boxes[n], width);
      }
    }
  }

  /** `calculate_position` over the detector's output for a frame of the
      given width (the height plays no part). */
  method CalculatePosition(output: ModelOutput, birdConfidence: real, width: int) returns (score: real)
    ensures score == Position(AllBoxes(output), birdConfidence, width as real)
  {
    if |output| == 0 {
      return 0.0;
    }
    var frameWidth := width as real;
    score := 0.0;
    for i := 0 to |output|
      invariant score == Position(AllBoxes(output[..i]), birdConfidence, frameWidth)
    {
      assert output[..i + 1][..i] == output[..i];
      ghost var before := AllBoxes(output[..i]);
      assert before + [] == before;
      if output[i].Some? && |output[i].value| != 0 {
        score := ScanPositions(output[i].value, birdConfidence, frameWidth, before, score);
      }
    }
    assert output[..|output|] == output;
  }

  /** The inner loop of `calculate_position`, over one result's boxes,
      continuing from the score of the boxes `before` them. */
  method ScanPositions(boxes: seq<BoxXY>, birdConfidence: real, frameWidth: real, ghost before: seq<BoxXY>, score0: real)
    returns (score: real)
    requires score0 == Position(before, birdConfidence, frameWidth)
    ensures score == Position(before + boxes, birdConfidence, frameWidth)
  {
    score := score0;
    assert before + [] == before;
    for j := 0 to |boxes|
      invariant score == Position(before + boxes[..j], birdConfidence, frameWidth)
    {
      assert (before + boxes[..j + 1])[..|before| + j] == before + boxes[..j];
      var box := boxes[j];
      if box.cls == Detector.BirdClassId && box.conf >= birdConfidence {
        var touchesLeft := box.x1 <= EdgeThreshold;
        var touchesRight := box.x2 >= frameWidth - EdgeThreshold;
        var touchesTop := box.y1 <= EdgeThreshold;
        var positionScore := if touchesLeft || touchesRight || touchesTop then 0.3 else 1.0;
        assert positionScore == BoxPosition(box, frameWidth);
        score := MaxReal(score, positionScore);
      }
    }
    assert boxes[..|boxes|] == boxes;
  }

  // ---------------------------------------------------------------------
  // normalize_scores
  // ---------------------------------------------------------------------

  function MinReal(s: seq<real>): (m: real)
    requires s != []
    ensures m in s && forall i :: 0 <= i < |s| ==> m <= s[i]
  {
    if |s| == 1 then s[0]
    else
      var m := MinReal(s[..|s| - 1]);
      if s[|s| - 1] < m then s[|s| - 1] else m
  }

  function MaxRealOf(s: seq<real>): (m: real)
    requires s != []
    ensures m in s && forall i :: 0 <= i < |s| ==> s[i] <= m
  {
    if |s| == 1 then s[0]
    else
      var m := MaxRealOf(s[..|s| - 1]);
      if s[|s| - 1] > m then s[|s| - 1] else m
  }

  /** A spread below this counts as all values being the same. */
  const FlatTolerance: real := 0.000001

  /** Each value's place between `lo` and `hi`, as a fraction of the spread. */
  function Rescale(values: seq<real>, lo: real, hi: real): (r: seq<real>)
    requires hi > lo
    ensures |r| == |values|
  {
    seq(|values|, i requires 0 <= i < |values| => (values[i] - lo) / (hi - lo))
  }

  /** Min-max normalisation of one factor's values; the confidences, and an
      empty list, are kept as they are. */
  function NormalizeValues(key: string, values: seq<real>): (r: seq<real>)
    ensures |r| == |values|
  {
    if values == [] || key == "confidence" then values
    else
      var lo := MinReal(values);
      var hi := MaxRealOf(values);
      if hi - lo < FlatTolerance then seq(|values|, i => 0.5)
      else Rescale(values, lo, hi)
  }

  /** `normalize_scores`: every factor normalised under its own key. */
  function NormalizeScores(scores: map<string, seq<real>>): (r: map<string, seq<real>>)
    ensures r.Keys == scores.Keys
    ensures forall key :: key in r ==> |r[key]| == |scores[key]|
  {
    map key | key in scores :: NormalizeValues(key, scores[key])
  }

  lemma DivOrder(x: real, y: real, d: real)
    requires d > 0.0
    ensures x / d <= y / d <==> x <= y
  {
    if x <= y {
      DivMonotone(x, y, d);
    } else {
      assert x / d - y / d == (x - y) / d;
      assert (x - y) / d > 0.0;
    }
  }

  /** `r` places the values on [0, 1]: `lo` exactly at 0, `hi` exactly at
      1, and the order of any two values kept both ways. */
  ghost predicate RescaledOnto(values: seq<real>, r: seq<real>, lo: real, hi: real) {
    && |r| == |values|
    && (forall i :: 0 <= i < |r| ==> 0.0 <= r[i] <= 1.0)
    && (forall i :: 0 <= i < |r| ==> (r[i] == 0.0 <==> values[i] == lo))
    && (forall i :: 0 <= i < |r| ==> (r[i] == 1.0 <==> values[i] == hi))
    && (forall i, j :: 0 <= i < |r| && 0 <= j < |r| ==> (r[i] <= r[j] <==> values[i] <= values[j]))
  }

  lemma RescalePoint(v: real, lo: real, hi: real)
    requires lo <= v <= hi && lo < hi
    ensures var x := (v - lo) / (hi - lo);
            0.0 <= x <= 1.0 && (x == 0.0 <==> v == lo) && (x == 1.0 <==> v == hi)
  {
    var d := hi - lo;
    DivOrder(0.0, v - lo, d);
    DivOrder(v - lo, 0.0, d);
    DivOrder(v - lo, d, d);
    DivOrder(d, v - lo, d);
    assert 0.0 / d == 0.0 && d / d == 1.0;
  }

  lemma RescaleSpec(values: seq<real>, lo: real, hi: real)
    requires lo < hi && forall i :: 0 <= i < |values| ==> lo <= values[i] <= hi
    ensures RescaledOnto(values, Rescale(values, lo, hi), lo, hi)
  {
    var r := Rescale(values, lo, hi);
    forall i | 0 <= i < |r|
      ensures 0.0 <= r[i] <= 1.0 && (r[i] == 0.0 <==> values[i] == lo) && (r[i] == 1.0 <==> values[i] == hi)
    {
      RescalePoint(values[i], lo, hi);
    }
    forall i, j | 0 <= i < |r| && 0 <= j < |r|
      ensures r[i] <= r[j] <==> values[i] <= values[j]
    {
      DivOrder(values[i] - lo, values[j] - lo, hi - lo);
    }
  }

  /** Normalisation keeps the confidences and empty lists as they are and
      sets a flat factor to 0.5 everywhere.  Otherwise every value lands in
      [0, 1], the smallest values exactly at 0, the largest exactly at 1,
      and the order of any two values is kept both ways. */
  lemma NormalizeSpec(key: string, values: seq<real>)
    ensures var r := NormalizeValues(key, values);
            && (values == [] || key == "confidence" ==> r == values)
            && (values != [] && key != "confidence" ==>
                  var lo := MinReal(values);
                  var hi := MaxRealOf(values);
                  && (hi - lo < FlatTolerance ==> forall i :: 0 <= i < |r| ==> r[i] == 0.5)
                  && (hi - lo >= FlatTolerance ==> RescaledOnto(values, r, lo, hi)))
  {
    if values != [] && key != "confidence" {
      var lo := MinReal(values);
      var hi := MaxRealOf(values);
      if hi - lo >= FlatTolerance {
        RescaleSpec(values, lo, hi);
      }
    }
  }

  // ---------------------------------------------------------------------
  // extract_and_score_frames
  // ---------------------------------------------------------------------

  /** The weight of each factor in the combined score. */
  datatype Weights = Weights(confidence: real, sharpness: real, birdSize: real, position: real)

  /** Reading a clip's frame at its first sighting: nothing (the clip is
      missing, does not open or the read fails), or the frame's sharpness
      (variance of the Laplacian), the detector's output on it and its
      size. */
  datatype FrameRead = Unreadable | Decoded(sharpness: real, output: ModelOutput, width: int, height: int)

  /** A decoded frame has at least one pixel. */
  ghost predicate Decodes(read: string -> FrameRead) {
    forall clip :: read(clip).Decoded? ==> read(clip).width > 0 && read(clip).height > 0
  }

  /** An entry of `frame_data`: a clip's raw measures. */
  datatype RawFrame = RawFrame(clipName: string, timestamp: real, confidence: real,
                               sharpness: real, birdSize: real, position: real)

  /** `FrameScore`. */
  datatype FrameScore = FrameScore(clipName: string, timestamp: real, confidence: real,
                                   sharpness: real, birdSize: real, position: real, combined: real)

  /** The raw measures of a decoded frame. */
  function Measure(clip: string, info: ClipFilter.ClipDetection, f: FrameRead, birdConfidence: real): RawFrame
    requires f.Decoded? && f.width > 0 && f.height > 0
  {
    var boxes := AllBoxes(f.output);
    RawFrame(clip, info.firstBird, info.confidence, f.sharpness,
             BirdSize(boxes, birdConfidence, (f.width * f.height) as real),
             Position(boxes, birdConfidence, f.width as real))
  }

  /** `frame_data` after the given clips: the measures of each clip whose
      frame could be read, in clip order. */
  function Measured(clips: seq<string>, detections: map<string, ClipFilter.ClipDetection>,
                    read: string -> FrameRead, birdConfidence: real): seq<RawFrame>
    requires forall c :: c in clips ==> c in detections
    requires Decodes(read)
  {
    if clips == [] then []
    else
      var clip := clips[|clips| - 1];
      var init := Measured(clips[..|clips| - 1], detections, read, birdConfidence);
      if read(clip).Decoded? then init + [Measure(clip, detections[clip], read(clip), birdConfidence)] else init
  }

  function ConfidenceOf(f: RawFrame): real { f.confidence }
  function SharpnessOf(f: RawFrame): real { f.sharpness }
  function BirdSizeOf(f: RawFrame): real { f.birdSize }
  function PositionOf(f: RawFrame): real { f.position }

  /** `raw_scores`: one list per factor, in `frame_data` order. */
  function RawScores(frames: seq<RawFrame>): map<string, seq<real>> {
    map["confidence" := Map(frames, ConfidenceOf), "sharpness" := Map(frames, SharpnessOf),
        "bird_size" := Map(frames, BirdSizeOf), "position" := Map(frames, PositionOf)]
  }

  function WithCombined(f: RawFrame, combined: real): FrameScore {
    FrameScore(f.clipName, f.timestamp, f.confidence, f.sharpness, f.birdSize, f.position, combined)
  }

  /** The four factor lists a combination reads, one entry per frame. */
  predicate HasFactors(n: map<string, seq<real>>, count: nat) {
    && "confidence" in n && "sharpness" in n && "bird_size" in n && "position" in n
    && |n["confidence"]| == count && |n["sharpness"]| == count
    && |n["bird_size"]| == count && |n["position"]| == count
  }

  /** Each frame with the weighted sum of its entries in the factor lists. */
  function Combine(frames: seq<RawFrame>, n: map<string, seq<real>>, w: Weights): (r: seq<FrameScore>)
    requires HasFactors(n, |frames|)
    ensures |r| == |frames|
  {
    seq(|frames|, i requires 0 <= i < |frames| => CombineAt(frames, n, w, i))
  }

  /** One frame with the weighted sum of its entries. */
  function CombineAt(frames: seq<RawFrame>, n: map<string, seq<real>>, w: Weights, i: nat): FrameScore
    requires HasFactors(n, |frames|) && i < |frames|
  {
    WithCombined(frames[i], Weighted(w, n["confidence"][i], n["sharpness"][i], n["bird_size"][i], n["position"][i]))
  }

  /** The weighted sum of one frame's four factors. */
  function Weighted(w: Weights, confidence: real, sharpness: real, birdSize: real, position: real): real {
    Scale(w.confidence, confidence) + Scale(w.sharpness, sharpness) + Scale(w.birdSize, birdSize) + Scale(w.position, position)
  }

  function Scale(weight: real, x: real): real {
    weight * x
  }

  /** `scored_frames` before sorting: the factors normalised over all
      frames, then combined. */
  function Scored(frames: seq<RawFrame>, w: Weights): (r: seq<FrameScore>)
    ensures |r| == |frames|
  {
    Combine(frames, NormalizeScores(RawScores(frames)), w)
  }

  /** `sort(key=combined, reverse=True)`. */
  function ByCombinedDescending(): (FrameScore, FrameScore) -> bool {
    (a: FrameScore, b: FrameScore) => a.combined >= b.combined
  }

  /** The clips that are scored: the names in sorted order, cut to `limit`
      when it is set and not 0. */
  function ChosenClips(keys: seq<string>, limit: Option<int>): (r: seq<string>)
    ensures forall c :: c in r ==> c in keys
  {
    var sorted := SortStrings(keys);
    SortStringsSpec(keys);
    var r := PyLimit(sorted, limit);
    assert forall c :: c in r ==> c in multiset(sorted);
    r
  }

  /** The outcome of `extract_and_score_frames`, timing aside. */
  function ScoreFrames(detections: map<string, ClipFilter.ClipDetection>, keys: seq<string>, limit: Option<int>,
                       w: Weights, birdConfidence: real, read: string -> FrameRead): seq<FrameScore>
    requires forall k :: k in keys <==> k in detections
    requires Decodes(read)
  {
    if |detections| == 0 then []
    else
      var frames := Measured(ChosenClips(keys, limit), detections, read, birdConfidence);
      if frames == [] then [] else SortBy(Scored(frames, w), ByCombinedDescending())
  }

  /** `extract_and_score_frames` over the loaded detections, whose keys are
      listed in `keys` (each once, in any order). */
  method ExtractAndScoreFrames(detections: map<string, ClipFilter.ClipDetection>, keys: seq<string>, limit: Option<int>,
                               weights: Weights, birdConfidence: real, read: string -> FrameRead)
    returns (frames: seq<FrameScore>)
    requires (forall k :: k in keys <==> k in detections) && NoRepeats(keys)
    requires Decodes(read)
    ensures frames == ScoreFrames(detections, keys, limit, weights, birdConfidence, read)
  {
    if |detections| == 0 {
      return [];
    }
    var clipNames := ChosenClips(keys, limit);
    var frameData, rawScores := MeasureClips(clipNames, detections, read, birdConfidence);
    if frameData == [] {
      return [];
    }
    var normalized := NormalizeScores(rawScores);
    var scored := CombineScores(frameData, normalized, weights);
    frames := SortBy(scored, ByCombinedDescending());
  }

  /** The measuring loop of `extract_and_score_frames`: `frame_data` and
      the four lists of `raw_scores`. */
  method MeasureClips(clipNames: seq<string>, detections: map<string, ClipFilter.ClipDetection>,
                      read: string -> FrameRead, birdConfidence: real)
    returns (frameData: seq<RawFrame>, rawScores: map<string, seq<real>>)
    requires forall c :: c in clipNames ==> c in detections
    requires Decodes(read)
    ensures frameData == Measured(clipNames, detections, read, birdConfidence)
    ensures rawScores == RawScores(frameData)
  {
    var confidences, sharpnesses, birdSizes, positions: seq<real> := [], [], [], [];
    frameData := [];
    for i := 0 to |clipNames|
      invariant frameData == Measured(clipNames[..i], detections, read, birdConfidence)
      invariant confidences == Map(frameData, ConfidenceOf) && sharpnesses == Map(frameData, SharpnessOf)
      invariant birdSizes == Map(frameData, BirdSizeOf) && positions == Map(frameData, PositionOf)
    {
      assert clipNames[..i + 1][..i] == clipNames[..i];
      var clipName := clipNames[i];
      var info := detections[clipName];
      var f := read(clipName);
      if f.Decoded? {
        var birdSize := CalculateBirdSize(f.output, birdConfidence, f.width, f.height);
        var position := CalculatePosition(f.output, birdConfidence, f.width);
        confidences := confidences + [info.confidence];
        sharpnesses := sharpnesses + [f.sharpness];
        birdSizes := birdSizes + [birdSize];
        positions := positions + [position];
        frameData := frameData + [RawFrame(clipName, info.firstBird, info.confidence, f.sharpness, birdSize, position)];
      }
    }
    assert clipNames[..|clipNames|] == clipNames;
    rawScores := map["confidence" := confidences, "sharpness" := sharpnesses,
                     "bird_size" := birdSizes, "position" := positions];
  }

  /** The combining loop of `extract_and_score_frames`. */
  method CombineScores(frameData: seq<RawFrame>, normalized: map<string, seq<real>>, weights: Weights)
    returns (scored: seq<FrameScore>)
    requires HasFactors(normalized, |frameData|)
    ensures scored == Combine(frameData, normalized, weights)
  {
    scored := [];
    for i := 0 to |frameData|
      invariant scored == Combine(frameData, normalized, weights)[..i]
    {
      ghost var all := Combine(frameData, normalized, weights);
      assert all[..i + 1] == all[..i] + [all[i]];
      var combined :=
        weights.confidence * normalized["confidence"][i] + weights.sharpness * normalized["sharpness"][i] +
        weights.birdSize * normalized["bird_size"][i] + weights.position * normalized["position"][i];
      assert combined == Weighted(weights, normalized["confidence"][i], normalized["sharpness"][i],
                                  normalized["bird_size"][i], normalized["position"][i]);
      assert all[i] == CombineAt(frameData, normalized, weights, i);
      assert all[i] == WithCombined(frameData[i], combined);
      scored := scored + [WithCombined(frameData[i], combined)];
    }
  }

  /** `frame_data` holds, in clip order, exactly the clips whose frame
      could be read (positions `idx` in the clip list), each measured from
      its own detection and frame. */
  lemma {:induction false} MeasuredSpec(clips: seq<string>, detections: map<string, ClipFilter.ClipDetection>,
                                        read: string -> FrameRead, birdConfidence: real)
    returns (idx: seq<nat>)
    requires forall c :: c in clips ==> c in detections
    requires Decodes(read)
    ensures var frames := Measured(clips, detections, read, birdConfidence);
            && |idx| == |frames|
            && (forall k :: 0 <= k < |idx| ==> idx[k] < |clips| && read(clips[idx[k]]).Decoded?)
            && (forall k, m :: 0 <= k < m < |idx| ==> idx[k] < idx[m])
            && (forall i :: 0 <= i < |clips| && read(clips[i]).Decoded? ==> i in idx)
            && (forall k :: 0 <= k < |idx| ==>
                  frames[k] == Measure(clips[idx[k]], detections[clips[idx[k]]], read(clips[idx[k]]), birdConfidence))
  {
    if clips == [] {
      idx := [];
    } else {
      var n := |clips| - 1;
      var init := clips[..n];
      idx := MeasuredSpec(init, detections, read, birdConfidence);
      assert forall k :: 0 <= k < |idx| ==> clips[idx[k]] == init[idx[k]];
      if read(clips[n]).Decoded? {
        idx := idx + [n];
      }
    }
  }

  /** The normalised lists: the confidences as they were, the other
      factors each normalised on its own. */
  lemma NormalizedColumns(frames: seq<RawFrame>)
    ensures var n := NormalizeScores(RawScores(frames));
            && n["confidence"] == Map(frames, ConfidenceOf)
            && n["sharpness"] == NormalizeValues("sharpness", Map(frames, SharpnessOf))
            && n["bird_size"] == NormalizeValues("bird_size", Map(frames, BirdSizeOf))
            && n["position"] == NormalizeValues("position", Map(frames, PositionOf))
  {
    var raw := RawScores(frames);
    assert raw["confidence"] == Map(frames, ConfidenceOf);
    assert raw["sharpness"] == Map(frames, SharpnessOf);
    assert raw["bird_size"] == Map(frames, BirdSizeOf);
    assert raw["position"] == Map(frames, PositionOf);
  }

  /** Each frame keeps its measures, and its combined score is the
      weighted sum of its raw confidence (never normalised) and its other
      three factors normalised over all frames. */
  lemma ScoredSpec(frames: seq<RawFrame>, w: Weights, i: nat)
    requires i < |frames|
    ensures var r := Scored(frames, w)[i];
            && r.clipName == frames[i].clipName && r.timestamp == frames[i].timestamp
            && r.confidence == frames[i].confidence && r.sharpness == frames[i].sharpness
            && r.birdSize == frames[i].birdSize && r.position == frames[i].position
            && r.combined == Weighted(w, frames[i].confidence,
                                      NormalizeValues("sharpness", Map(frames, SharpnessOf))[i],
                                      NormalizeValues("bird_size", Map(frames, BirdSizeOf))[i],
                                      NormalizeValues("position", Map(frames, PositionOf))[i])
  {
    var n := NormalizeScores(RawScores(frames));
    NormalizedColumns(frames);
    MapAt(frames, ConfidenceOf);
    assert Scored(frames, w)[i] == CombineAt(frames, n, w, i);
  }

  /** A normalised factor lies in [0, 1]. */
  lemma NormalizedUnit(key: string, values: seq<real>, i: nat)
    requires key != "confidence" && i < |values|
    ensures 0.0 <= NormalizeValues(key, values)[i] <= 1.0
  {
    NormalizeSpec(key, values);
  }

  /** With non-negative weights and a confidence in [0, 1], a combined
      score lies between 0 and the sum of the weights. */
  lemma CombinedBounds(frames: seq<RawFrame>, w: Weights, i: nat)
    requires w.confidence >= 0.0 && w.sharpness >= 0.0 && w.birdSize >= 0.0 && w.position >= 0.0
    requires i < |frames| && 0.0 <= frames[i].confidence <= 1.0
    ensures 0.0 <= Scored(frames, w)[i].combined <= w.confidence + w.sharpness + w.birdSize + w.position
  {
    ScoredSpec(frames, w, i);
    var c := frames[i].confidence;
    var s := NormalizeValues("sharpness", Map(frames, SharpnessOf))[i];
    var b := NormalizeValues("bird_size", Map(frames, BirdSizeOf))[i];
    var p := NormalizeValues("position", Map(frames, PositionOf))[i];
    NormalizedUnit("sharpness", Map(frames, SharpnessOf), i);
    NormalizedUnit("bird_size", Map(frames, BirdSizeOf), i);
    NormalizedUnit("position", Map(frames, PositionOf), i);
    WeightedBounds(w, c, s, b, p);
  }

  lemma WeightedBounds(w: Weights, c: real, s: real, b: real, p: real)
    requires w.confidence >= 0.0 && w.sharpness >= 0.0 && w.birdSize >= 0.0 && w.position >= 0.0
    requires 0.0 <= c <= 1.0 && 0.0 <= s <= 1.0 && 0.0 <= b <= 1.0 && 0.0 <= p <= 1.0
    ensures 0.0 <= Weighted(w, c, s, b, p) <= w.confidence + w.sharpness + w.birdSize + w.position
  {
    ScaleUnit(w.confidence, c);
    ScaleUnit(w.sharpness, s);
    ScaleUnit(w.birdSize, b);
    ScaleUnit(w.position, p);
  }

  lemma ScaleUnit(weight: real, x: real)
    requires 0.0 <= x <= 1.0 && weight >= 0.0
    ensures 0.0 <= Scale(weight, x) <= weight
  {
    MulMonotone(0.0, x, weight);
    MulMonotone(x, 1.0, weight);
  }

  /** The result holds the scored frames, each once, in descending
      combined order, frames with equal scores keeping their clip order. */
  lemma ScoreFramesOrder(detections: map<string, ClipFilter.ClipDetection>, keys: seq<string>, limit: Option<int>,
                         w: Weights, birdConfidence: real, read: string -> FrameRead)
    requires forall k :: k in keys <==> k in detections
    requires Decodes(read)
    requires |detections| > 0
    ensures var r := ScoreFrames(detections, keys, limit, w, birdConfidence, read);
            var scored := Scored(Measured(ChosenClips(keys, limit), detections, read, birdConfidence), w);
            && multiset(r) == multiset(scored)
            && (forall i, j :: 0 <= i < j < |r| ==> r[i].combined >= r[j].combined)
            && (forall f :: TiedWith(r, ByCombinedDescending(), f) == TiedWith(scored, ByCombinedDescending(), f))
  {
    var scored := Scored(Measured(ChosenClips(keys, limit), detections, read, birdConfidence), w);
    var le := ByCombinedDescending();
    assert TotalPreorder(le);
    SortPermutes(scored, le);
    SortSorted(scored, le);
    forall f ensures TiedWith(SortBy(scored, le), le, f) == TiedWith(scored, le, f) {
      SortStable(scored, le, f);
    }
  }

  /** The scored clips do not depend on the order in which the detection
      file lists them. */
  lemma ScoreFramesKeyOrder(detections: map<string, ClipFilter.ClipDetection>, keys1: seq<string>, keys2: seq<string>,
                            limit: Option<int>, w: Weights, birdConfidence: real, read: string -> FrameRead)
    requires (forall k :: k in keys1 <==> k in detections) && NoRepeats(keys1)
    requires (forall k :: k in keys2 <==> k in detections) && NoRepeats(keys2)
    requires Decodes(read)
    ensures ScoreFrames(detections, keys1, limit, w, birdConfidence, read)
         == ScoreFrames(detections, keys2, limit, w, birdConfidence, read)
  {
    forall x ensures multiset(keys1)[x] == multiset(keys2)[x] {
      DistinctOnce(keys1, x);
      DistinctOnce(keys2, x);
      assert x in multiset(keys1) <==> x in detections;
      assert x in multiset(keys2) <==> x in detections;
    }
    assert multiset(keys1) == multiset(keys2);
    SortStringsCanonical(keys1, keys2);
  }

  // ---------------------------------------------------------------------
  // save_top_frames
  // ---------------------------------------------------------------------

  /** A frame written to disk, with its rank in the ranking. */
  datatype SavedFrame = SavedFrame(rank: nat, frame: FrameScore)

  /** The frames among `ranked` that could be read back, each with its
      1-based position in `ranked`. */
  function SavedOf(ranked: seq<FrameScore>, readable: FrameScore -> bool): seq<SavedFrame> {
    if ranked == [] then []
    else
      var init := SavedOf(ranked[..|ranked| - 1], readable);
      var f := ranked[|ranked| - 1];
      if readable(f) then init + [SavedFrame(|ranked|, f)] else init
  }

  /** `save_top_frames`: the first `top_n` frames are ranked from 1 and
      those whose frame can be read again are written. */
  method SaveTopFrames(frames: seq<FrameScore>, topN: int, readable: FrameScore -> bool) returns (saved: seq<SavedFrame>)
    ensures saved == SavedOf(PyPrefix(frames, topN), readable)
  {
    var top := PyPrefix(frames, topN);
    saved := [];
    for k := 0 to |top|
      invariant saved == SavedOf(top[..k], readable)
    {
      assert top[..k + 1][..k] == top[..k];
      var rank := k + 1;
      if readable(top[k]) {
        saved := saved + [SavedFrame(rank, top[k])];
      }
    }
    assert top[..|top|] == top;
  }

  /** The saved frames keep their ranks: ranks rise strictly and each
      names a readable frame at that place of the ranking, so no more than
      `top_n` are saved. */
  lemma {:induction false} SavedRanks(ranked: seq<FrameScore>, readable: FrameScore -> bool)
    ensures var s := SavedOf(ranked, readable);
            && |s| <= |ranked|
            && (forall k :: 0 <= k < |s| ==> 1 <= s[k].rank <= |ranked|)
            && (forall k :: 0 <= k < |s| ==> s[k].frame == ranked[s[k].rank - 1] && readable(s[k].frame))
            && (forall k, m :: 0 <= k < m < |s| ==> s[k].rank < s[m].rank)
  {
    if ranked != [] {
      var n := |ranked| - 1;
      var init := ranked[..n];
      SavedRanks(init, readable);
      var s0 := SavedOf(init, readable);
      assert forall k :: 0 <= k < |s0| ==> ranked[s0[k].rank - 1] == init[s0[k].rank - 1];
    }
  }

  /** Every readable frame of the ranking is saved under its rank. */
  lemma {:induction false} SavedComplete(ranked: seq<FrameScore>, readable: FrameScore -> bool, i: nat)
    returns (k: nat)
    requires i < |ranked| && readable(ranked[i])
    ensures var s := SavedOf(ranked, readable);
            k < |s| && s[k].rank == i + 1
  {
    var n := |ranked| - 1;
    var init := ranked[..n];
    if i == n {
      k := |SavedOf(init, readable)|;
    } else {
      k := SavedComplete(init, readable, i);
    }
  }

  // ---------------------------------------------------------------------
  // save_frame_metadata
  // ---------------------------------------------------------------------

  /** An entry of `frame_scores.json`. */
  datatype FrameEntry = FrameEntry(rank: nat, clip: string, timestamp: real, confidence: real,
                                   sharpness: real, birdSize: real, position: real, combined: real)

  /** A frame's entry at a rank: confidence, bird size, position and
      combined score rounded to 3 places, sharpness to 1. */
  function Entry(rank: nat, f: FrameScore): FrameEntry {
    FrameEntry(rank, f.clipName, f.timestamp, Round(f.confidence, 3), Round(f.sharpness, 1),
               Round(f.birdSize, 3), Round(f.position, 3), Round(f.combined, 3))
  }

  function Metadata(frames: seq<FrameScore>): (r: seq<FrameEntry>)
    ensures |r| == |frames|
  {
    seq(|frames|, k requires 0 <= k < |frames| => Entry(k + 1, frames[k]))
  }

  /** The `frames` list of `save_frame_metadata`. */
  method SaveFrameMetadata(frames: seq<FrameScore>) returns (entries: seq<FrameEntry>)
    ensures entries == Metadata(frames)
  {
    entries := [];
    for k := 0 to |frames|
      invariant entries == Metadata(frames)[..k]
    {
      var rank := k + 1;
      var f := frames[k];
      entries := entries + [FrameEntry(rank, f.clipName, f.timestamp, Round(f.confidence, 3), Round(f.sharpness, 1),
                                       Round(f.birdSize, 3), Round(f.position, 3), Round(f.combined, 3))];
    }
  }

  /** The entries are ranked 1, 2, ... in list order, each for its own
      clip and time; for a list sorted by descending combined score the
      rounded combined scores still never rise. */
  lemma MetadataSpec(frames: seq<FrameScore>)
    ensures var r := Metadata(frames);
            && (forall k :: 0 <= k < |r| ==> r[k].rank == k + 1 && r[k].clip == frames[k].clipName && r[k].timestamp == frames[k].timestamp)
            && ((forall i, j :: 0 <= i < j < |frames| ==> frames[i].combined >= frames[j].combined) ==>
                  forall i, j :: 0 <= i < j < |r| ==> r[i].combined >= r[j].combined)
  {
    var r := Metadata(frames);
    if forall i, j :: 0 <= i < j < |frames| ==> frames[i].combined >= frames[j].combined {
      forall i, j | 0 <= i < j < |r| ensures r[i].combined >= r[j].combined {
        RoundMonotone(frames[j].combined, frames[i].combined, 3);
      }
    }
  }
}
