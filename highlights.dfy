/** The highlights reel: locating the stretch of each clip in which a bird is
    visible (a coarse scan at five checkpoints refined by two binary
    searches), padding it into a segment, and assembling the extracted
    segments with crossfades.  Video decoding, detection and ffmpeg are
    oracles: a clip's detector is a function from a time to a `Sighting`, and
    an ffmpeg run is a function from a command to success or failure. */
module Highlights {
  import opened Prelude
  import opened Seqs
  import opened Numbers
  import opened Text

  /** The detector's answer at one instant of a clip.  `Fault` stands for an
      exception raised while seeking, reading or detecting. */
  datatype Sighting = Bird | NoBird | Fault

  type Probe = real -> Sighting

  // ---------------------------------------------------------------------
  // Termination measure for the searches
  // ---------------------------------------------------------------------

  /** An upper bound on the halvings left before an interval of `width`
      shrinks to `precision`. */
  function Steps(width: real, precision: real): nat
    requires precision > 0.0
  {
    if width <= precision then 0
    else
      RatioAboveOne(width, precision);
      (width / precision).Floor
  }

  lemma RatioAboveOne(a: real, b: real)
    requires b > 0.0 && a > b
    ensures a / b > 1.0
  {
    DivTimes(a, b);
    if a / b <= 1.0 {
      MulMonotone(a / b, 1.0, b);
    }
  }

  lemma HalfRatio(a: real, b: real)
    requires b > 0.0
    ensures (a / 2.0) / b == (a / b) / 2.0
  {
    DivTimes(a, b);
    DivTimes(a / 2.0, b);
  }

  /** Halving an interval wider than the precision takes a step off the bound. */
  lemma StepsHalve(width: real, precision: real)
    requires precision > 0.0 && width > precision
    ensures Steps(width / 2.0, precision) < Steps(width, precision)
  {
    if width / 2.0 > precision {
      var x, y := width / precision, (width / 2.0) / precision;
      RatioAboveOne(width / 2.0, precision);
      HalfRatio(width, precision);
      assert x == 2.0 * y;
      assert Steps(width, precision) == x.Floor;
      assert Steps(width / 2.0, precision) == y.Floor;
      assert y.Floor as real <= y && x - 1.0 < x.Floor as real;
    } else {
      RatioAboveOne(width, precision);
    }
  }

  // ---------------------------------------------------------------------
  // _binary_search_entry and _binary_search_exit
  // ---------------------------------------------------------------------

  /** The entry search: halves `[low, high]`, moving `high` down to every
      midpoint that shows a bird and `low` up to every one that does not,
      until the interval is at most `precision` wide, and answers the final
      `high`.  None when a probe faults. */
  function EntrySearch(probe: Probe, low: real, high: real, precision: real): Option<real>
    requires precision > 0.0
    decreases Steps(high - low, precision)
  {
    if high - low <= precision then Some(high)
    else
      var mid := (low + high) / 2.0;
      StepsHalve(high - low, precision);
      match probe(mid)
      case Fault => None
      case Bird => EntrySearch(probe, low, mid, precision)
      case NoBird => EntrySearch(probe, mid, high, precision)
  }

  /** The exit search: the mirror image, answering the final `low`. */
  function ExitSearch(probe: Probe, low: real, high: real, precision: real): Option<real>
    requires precision > 0.0
    decreases Steps(high - low, precision)
  {
    if high - low <= precision then Some(low)
    else
      var mid := (low + high) / 2.0;
      StepsHalve(high - low, precision);
      match probe(mid)
      case Fault => None
      case Bird => ExitSearch(probe, mid, high, precision)
      case NoBird => ExitSearch(probe, low, mid, precision)
  }

  method BinarySearchEntry(probe: Probe, low0: real, high0: real, precision: real) returns (r: Option<real>)
    requires precision > 0.0
    ensures r == EntrySearch(probe, low0, high0, precision)
  {
    var low, high := low0, high0;
    var firstSeen := high;
    while high - low > precision
      invariant firstSeen == high
      invariant EntrySearch(probe, low, high, precision) == EntrySearch(probe, low0, high0, precision)
      decreases Steps(high - low, precision)
    {
      var mid := (low + high) / 2.0;
      StepsHalve(high - low, precision);
      match probe(mid) {
        case Fault =>
          return None;
        case Bird =>
          firstSeen := mid;
          high := mid;
        case NoBird =>
          low := mid;
      }
    }
    r := Some(firstSeen);
  }

  method BinarySearchExit(probe: Probe, low0: real, high0: real, precision: real) returns (r: Option<real>)
    requires precision > 0.0
    ensures r == ExitSearch(probe, low0, high0, precision)
  {
    var low, high := low0, high0;
    var lastSeen := low;
    while high - low > precision
      invariant lastSeen == low
      invariant ExitSearch(probe, low, high, precision) == ExitSearch(probe, low0, high0, precision)
      decreases Steps(high - low, precision)
    {
      var mid := (low + high) / 2.0;
      StepsHalve(high - low, precision);
      match probe(mid) {
        case Fault =>
          return None;
        case Bird =>
          lastSeen := mid;
          low := mid;
        case NoBird =>
          high := mid;
      }
    }
    r := Some(lastSeen);
  }

  /** A bird that arrives at `t0` and stays: absent before, present from then on. */
  ghost predicate ArrivesAt(probe: Probe, t0: real) {
    forall t :: probe(t) == (if t >= t0 then Bird else NoBird)
  }

  /** A bird that is present up to `t0` and gone after it. */
  ghost predicate LeavesAt(probe: Probe, t0: real) {
    forall t :: probe(t) == (if t <= t0 then Bird else NoBird)
  }

  /** For a bird arriving inside `(low, high]` the entry search lands in
      `[t0, t0 + precision)`. */
  lemma {:induction false} EntryFindsArrival(probe: Probe, t0: real, low: real, high: real, precision: real)
    requires precision > 0.0 && ArrivesAt(probe, t0) && low < t0 <= high
    ensures var r := EntrySearch(probe, low, high, precision);
            r.Some? && t0 <= r.value < t0 + precision
    decreases Steps(high - low, precision)
  {
    if high - low > precision {
      var mid := (low + high) / 2.0;
      StepsHalve(high - low, precision);
      if mid >= t0 {
        EntryFindsArrival(probe, t0, low, mid, precision);
      } else {
        EntryFindsArrival(probe, t0, mid, high, precision);
      }
    }
  }

  /** For a bird leaving inside `[low, high)` the exit search lands in
      `(t0 - precision, t0]`. */
  lemma {:induction false} ExitFindsDeparture(probe: Probe, t0: real, low: real, high: real, precision: real)
    requires precision > 0.0 && LeavesAt(probe, t0) && low <= t0 < high
    ensures var r := ExitSearch(probe, low, high, precision);
            r.Some? && t0 - precision < r.value <= t0
    decreases Steps(high - low, precision)
  {
    if high - low > precision {
      var mid := (low + high) / 2.0;
      StepsHalve(high - low, precision);
      if mid <= t0 {
        ExitFindsDeparture(probe, t0, mid, high, precision);
      } else {
        ExitFindsDeparture(probe, t0, low, mid, precision);
      }
    }
  }

  /** Whatever the detector says, the entry search answers `high` itself or
      a time inside `(low, high)` at which a bird was seen. */
  lemma {:induction false} EntryAnswersSighting(probe: Probe, low: real, high: real, precision: real)
    requires precision > 0.0
    ensures var r := EntrySearch(probe, low, high, precision);
            r.Some? ==> r.value == high || (low < r.value < high && probe(r.value) == Bird)
    decreases Steps(high - low, precision)
  {
    if high - low > precision {
      var mid := (low + high) / 2.0;
      StepsHalve(high - low, precision);
      if probe(mid) == Bird {
        EntryAnswersSighting(probe, low, mid, precision);
      } else if probe(mid) == NoBird {
        EntryAnswersSighting(probe, mid, high, precision);
      }
    }
  }

  /** Whatever the detector says, the exit search answers `low` itself or a
      time inside `(low, high)` at which a bird was seen. */
  lemma {:induction false} ExitAnswersSighting(probe: Probe, low: real, high: real, precision: real)
    requires precision > 0.0
    ensures var r := ExitSearch(probe, low, high, precision);
            r.Some? ==> r.value == low || (low < r.value < high && probe(r.value) == Bird)
    decreases Steps(high - low, precision)
  {
    if high - low > precision {
      var mid := (low + high) / 2.0;
      StepsHalve(high - low, precision);
      if probe(mid) == Bird {
        ExitAnswersSighting(probe, mid, high, precision);
      } else if probe(mid) == NoBird {
        ExitAnswersSighting(probe, low, mid, precision);
      }
    }
  }

  /** The entry search probes only strictly inside `(low, high)`: two
      detectors that agree there give the same answer. */
  lemma {:induction false} EntryProbesInside(p1: Probe, p2: Probe, low: real, high: real, precision: real)
    requires precision > 0.0
    requires forall t :: low < t < high ==> p1(t) == p2(t)
    ensures EntrySearch(p1, low, high, precision) == EntrySearch(p2, low, high, precision)
    decreases Steps(high - low, precision)
  {
    if high - low > precision {
      var mid := (low + high) / 2.0;
      StepsHalve(high - low, precision);
      assert p1(mid) == p2(mid);
      EntryProbesInside(p1, p2, low, mid, precision);
      EntryProbesInside(p1, p2, mid, high, precision);
    }
  }

  /** The exit search probes only strictly inside `(low, high)`. */
  lemma {:induction false} ExitProbesInside(p1: Probe, p2: Probe, low: real, high: real, precision: real)
    requires precision > 0.0
    requires forall t :: low < t < high ==> p1(t) == p2(t)
    ensures ExitSearch(p1, low, high, precision) == ExitSearch(p2, low, high, precision)
    decreases Steps(high - low, precision)
  {
    if high - low > precision {
      var mid := (low + high) / 2.0;
      StepsHalve(high - low, precision);
      assert p1(mid) == p2(mid);
      ExitProbesInside(p1, p2, low, mid, precision);
      ExitProbesInside(p1, p2, mid, high, precision);
    }
  }

  // ---------------------------------------------------------------------
  // Segment and find_bird_segments
  // ---------------------------------------------------------------------

  /** A stretch of a clip with bird activity, in seconds from the clip's start. */
  datatype Segment = Segment(clipPath: string, startTime: real, endTime: real) {
    function Duration(): real { endTime - startTime }
  }

  /** What the video library reports about a clip, and its detector. */
  datatype Video = Video(isOpened: bool, fps: real, frameCount: real, probe: Probe)

  /** `get_video_duration`: frames over frame rate, 0 when the clip does not
      open or reports no positive frame rate. */
  function VideoDuration(v: Video): real {
    if !v.isOpened then 0.0 else if v.fps > 0.0 then v.frameCount / v.fps else 0.0
  }

  /** The duration `find_bird_segments` works with: the frame count is
      truncated to an integer first. */
  function ScanDuration(v: Video): real {
    if v.fps > 0.0 then Trunc(v.frameCount) as real / v.fps else 0.0
  }

  /** The last instant that is checked, one second before the end but not before 1 s. */
  function EndTime(duration: real): real {
    if duration - 1.0 >= 1.0 then duration - 1.0 else 1.0
  }

  /** The five coarse checkpoints, in the order they are probed. */
  function Checkpoints(duration: real): seq<real> {
    [0.0, 0.5, duration / 3.0, duration * 2.0 / 3.0, EndTime(duration)]
  }

  /** Both searches run with their default precision of one second. */
  const SearchPrecision: real := 1.0

  /** The outcome of probing a list of checkpoints: a fault, no bird at any,
      or the first and the last checkpoint that showed a bird. */
  datatype ScanResult = ScanFault | NoneSeen | Seen(first: real, last: real)

  function Scan(probe: Probe, times: seq<real>): ScanResult {
    if times == [] then NoneSeen
    else
      var t := times[|times| - 1];
      match Scan(probe, times[..|times| - 1])
      case ScanFault => ScanFault
      case NoneSeen =>
        (match probe(t) case Fault => ScanFault case Bird => Seen(t, t) case NoBird => NoneSeen)
      case Seen(f, l) =>
        (match probe(t) case Fault => ScanFault case Bird => Seen(f, t) case NoBird => Seen(f, l))
  }

  /** The scan faults exactly when some checkpoint faults. */
  lemma {:induction false} ScanFaultIff(probe: Probe, times: seq<real>)
    ensures Scan(probe, times).ScanFault? <==> exists i :: 0 <= i < |times| && probe(times[i]) == Fault
  {
    if times != [] {
      var n := |times| - 1;
      var init := times[..n];
      ScanFaultIff(probe, init);
      if Scan(probe, init).ScanFault? {
        var i :| 0 <= i < n && probe(init[i]) == Fault;
        assert probe(times[i]) == Fault;
      }
      if exists i :: 0 <= i < |times| && probe(times[i]) == Fault {
        var i :| 0 <= i < |times| && probe(times[i]) == Fault;
        if i < n {
          assert probe(init[i]) == Fault;
        }
      }
    }
  }

  /** The scan sees nothing exactly when every checkpoint shows no bird. */
  lemma {:induction false} ScanNoneIff(probe: Probe, times: seq<real>)
    ensures Scan(probe, times).NoneSeen? <==> forall i :: 0 <= i < |times| ==> probe(times[i]) == NoBird
  {
    if times != [] {
      var n := |times| - 1;
      var init := times[..n];
      ScanNoneIff(probe, init);
      assert forall k :: 0 <= k < n ==> times[k] == init[k];
    }
  }

  /** A scan that sees a bird reports the first and the last checkpoint, in
      list order, that show one. */
  lemma {:induction false} ScanSeenAt(probe: Probe, times: seq<real>) returns (i: nat, j: nat)
    requires Scan(probe, times).Seen?
    ensures i <= j < |times|
    ensures times[i] == Scan(probe, times).first && times[j] == Scan(probe, times).last
    ensures probe(times[i]) == Bird && probe(times[j]) == Bird
    ensures forall k :: 0 <= k < i ==> probe(times[k]) == NoBird
    ensures forall k :: j < k < |times| ==> probe(times[k]) == NoBird
  {
    var n := |times| - 1;
    var init := times[..n];
    assert forall k :: 0 <= k < n ==> times[k] == init[k];
    if Scan(probe, init).Seen? {
      i, j := ScanSeenAt(probe, init);
      if probe(times[n]) == Bird {
        j := n;
      }
    } else {
      ScanNoneIff(probe, init);
      i, j := n, n;
    }
  }

  /** A fault at some checkpoint is a fault of the whole scan. */
  lemma {:induction false} ScanFaultStays(probe: Probe, times: seq<real>, k: nat)
    requires k <= |times| && Scan(probe, times[..k]).ScanFault?
    ensures Scan(probe, times).ScanFault?
    decreases |times| - k
  {
    if k < |times| {
      assert times[..k + 1][..k] == times[..k];
      ScanFaultStays(probe, times, k + 1);
    } else {
      assert times[..k] == times;
    }
  }

  /** The first and the last instant with a bird, before padding: from the
      cached first sighting and a probe at the end time, or from the scan
      refined by the searches.  None when nothing is seen or a probe faults. */
  function BirdSpan(probe: Probe, duration: real, knownFirstBird: Option<real>): Option<(real, real)> {
    var endT := EndTime(duration);
    if knownFirstBird.Some? then
      var first := knownFirstBird.value;
      match probe(endT)
      case Fault => None
      case Bird => Some((first, endT))
      case NoBird =>
        (match ExitSearch(probe, first, endT, SearchPrecision)
         case None => None
         case Some(last) => Some((first, last)))
    else
      match Scan(probe, Checkpoints(duration))
      case ScanFault => None
      case NoneSeen => None
      case Seen(f, l) =>
        var first := if f > 0.0 then EntrySearch(probe, 0.0, f, SearchPrecision) else Some(f);
        var last := if l < endT then ExitSearch(probe, l, endT, SearchPrecision) else Some(l);
        if first.None? || last.None? then None else Some((first.value, last.value))
  }

  function Max(a: real, b: real): real { if a >= b then a else b }
  function Min(a: real, b: real): real { if a <= b then a else b }

  /** `find_bird_segments`: no segment for a clip that does not open or lasts
      under a second, or when no bird is found or a probe faults; otherwise
      the bird span padded by the buffers and clamped to the clip. */
  function BirdSegments(path: string, v: Video, bufferBefore: real, bufferAfter: real,
                        knownFirstBird: Option<real>): seq<Segment>
  {
    if !v.isOpened then []
    else
      var d := ScanDuration(v);
      if d < 1.0 then []
      else
        match BirdSpan(v.probe, d, knownFirstBird)
        case None => []
        case Some(span) =>
          [Segment(path, Max(0.0, span.0 - bufferBefore), Min(d, span.1 + bufferAfter))]
  }

  method FindBirdSegments(path: string, v: Video, bufferBefore: real, bufferAfter: real,
                          knownFirstBird: Option<real>) returns (segments: seq<Segment>)
    ensures segments == BirdSegments(path, v, bufferBefore, bufferAfter, knownFirstBird)
  {
    if !v.isOpened {
      return [];
    }
    var duration := ScanDuration(v);
    if duration < 1.0 {
      return [];
    }
    var endTime := EndTime(duration);
    var first: real, last: real;
    if knownFirstBird.Some? {
      first := knownFirstBird.value;
      match v.probe(endTime) {
        case Fault =>
          return [];
        case Bird =>
          last := endTime;
        case NoBird =>
          var found := BinarySearchExit(v.probe, first, endTime, SearchPrecision);
          if found.None? {
            return [];
          }
          last := found.value;
      }
    } else {
      var checkTimes := Checkpoints(duration);
      var scan := NoneSeen;
      for i := 0 to |checkTimes|
        invariant scan == Scan(v.probe, checkTimes[..i]) && !scan.ScanFault?
      {
        assert checkTimes[..i + 1][..i] == checkTimes[..i];
        var t := checkTimes[i];
        match v.probe(t) {
          case Fault =>
            assert Scan(v.probe, checkTimes[..i + 1]).ScanFault?;
            ScanFaultStays(v.probe, checkTimes, i + 1);
            return [];
          case Bird =>
            scan := if scan.NoneSeen? then Seen(t, t) else Seen(scan.first, t);
          case NoBird =>
        }
      }
      assert checkTimes[..|checkTimes|] == checkTimes;
      if !scan.Seen? {
        return [];
      }
      first, last := scan.first, scan.last;
      if first > 0.0 {
        var found := BinarySearchEntry(v.probe, 0.0, first, SearchPrecision);
        if found.None? {
          return [];
        }
        first := found.value;
      }
      if last < endTime {
        var found := BinarySearchExit(v.probe, last, endTime, SearchPrecision);
        if found.None? {
          return [];
        }
        last := found.value;
      }
    }
    segments := [Segment(path, Max(0.0, first - bufferBefore), Min(duration, last + bufferAfter))];
  }

  /** A clip that does not open or lasts under a second gives no segment;
      otherwise at most one, on the clip, starting at or after 0 and ending
      at or before the clip's duration. */
  lemma BirdSegmentsShape(path: string, v: Video, bufferBefore: real, bufferAfter: real,
                          knownFirstBird: Option<real>)
    ensures var r := BirdSegments(path, v, bufferBefore, bufferAfter, knownFirstBird);
            |r| <= 1 &&
            (!v.isOpened || ScanDuration(v) < 1.0 ==> r == []) &&
            (r != [] ==> r[0].clipPath == path && 0.0 <= r[0].startTime && r[0].endTime <= ScanDuration(v))
  {
  }

  /** Without a cached sighting: no bird at any checkpoint, or a fault at
      one, gives no span. */
  lemma UncachedNothingSeen(probe: Probe, duration: real)
    requires (forall i :: 0 <= i < 5 ==> probe(Checkpoints(duration)[i]) == NoBird) ||
             (exists i :: 0 <= i < 5 && probe(Checkpoints(duration)[i]) == Fault)
    ensures BirdSpan(probe, duration, None) == None
  {
    ScanNoneIff(probe, Checkpoints(duration));
    ScanFaultIff(probe, Checkpoints(duration));
  }

  /** Without a cached sighting, both ends of the span are instants at which
      a bird was seen: the first is at or before the first checkpoint that
      showed one and the last at or after the last such checkpoint. */
  lemma UncachedSpanSightings(probe: Probe, duration: real)
    requires duration >= 1.0
    requires BirdSpan(probe, duration, None).Some?
    ensures var span := BirdSpan(probe, duration, None).value;
            var scan := Scan(probe, Checkpoints(duration));
            scan.Seen? && probe(span.0) == Bird && probe(span.1) == Bird &&
            0.0 <= span.0 <= scan.first && scan.last <= span.1
  {
    var times := Checkpoints(duration);
    var scan := Scan(probe, times);
    var i, j := ScanSeenAt(probe, times);
    assert 0.0 <= times[i];
    EntryAnswersSighting(probe, 0.0, scan.first, SearchPrecision);
    ExitAnswersSighting(probe, scan.last, EndTime(duration), SearchPrecision);
  }

  /** A bird present exactly on `[t1, t2]`, strictly after 0 and before the
      end time, and caught by at least one checkpoint, is located to within
      the search precision at both ends. */
  lemma UncachedVisitFound(probe: Probe, duration: real, t1: real, t2: real) returns (a: real, b: real)
    requires forall t :: probe(t) == (if t1 <= t <= t2 then Bird else NoBird)
    requires 0.0 < t1 <= t2 < EndTime(duration)
    requires exists k :: 0 <= k < 5 && t1 <= Checkpoints(duration)[k] <= t2
    ensures BirdSpan(probe, duration, None) == Some((a, b))
    ensures t1 <= a < t1 + SearchPrecision && t2 - SearchPrecision < b <= t2
  {
    var times := Checkpoints(duration);
    var k :| 0 <= k < 5 && t1 <= times[k] <= t2;
    ScanFaultIff(probe, times);
    ScanNoneIff(probe, times);
    assert probe(times[k]) == Bird;
    var i, j := ScanSeenAt(probe, times);
    var f, l := times[i], times[j];
    var arrive: Probe := t => if t >= t1 then Bird else NoBird;
    var leave: Probe := t => if t <= t2 then Bird else NoBird;
    EntryProbesInside(probe, arrive, 0.0, f, SearchPrecision);
    EntryFindsArrival(arrive, t1, 0.0, f, SearchPrecision);
    ExitProbesInside(probe, leave, l, EndTime(duration), SearchPrecision);
    ExitFindsDeparture(leave, t2, l, EndTime(duration), SearchPrecision);
    a := EntrySearch(probe, 0.0, f, SearchPrecision).value;
    b := ExitSearch(probe, l, EndTime(duration), SearchPrecision).value;
  }

  /** With a cached first sighting the checkpoints are never probed: two
      detectors that agree at the end time and after the cached time give
      the same span. */
  lemma CachedIgnoresCheckpoints(p1: Probe, p2: Probe, duration: real, first: real)
    requires p1(EndTime(duration)) == p2(EndTime(duration))
    requires forall t :: first < t < EndTime(duration) ==> p1(t) == p2(t)
    ensures BirdSpan(p1, duration, Some(first)) == BirdSpan(p2, duration, Some(first))
  {
    ExitProbesInside(p1, p2, first, EndTime(duration), SearchPrecision);
  }

  /** With a cached first sighting: a bird still there at the end time ends
      the span there; a bird leaving at `t2` before it is located to within
      the search precision. */
  lemma CachedSpanEnd(probe: Probe, duration: real, first: real, t2: real)
    requires probe(EndTime(duration)) == Bird ||
             (first <= t2 < EndTime(duration) && LeavesAt(probe, t2))
    ensures var span := BirdSpan(probe, duration, Some(first));
            span.Some? && span.value.0 == first &&
            (probe(EndTime(duration)) == Bird ==> span.value.1 == EndTime(duration)) &&
            (probe(EndTime(duration)) != Bird ==> t2 - SearchPrecision < span.value.1 <= t2)
  {
    if probe(EndTime(duration)) != Bird {
      ExitFindsDeparture(probe, t2, first, EndTime(duration), SearchPrecision);
    }
  }

  /** The checkpoint list is in time order only from 1.5 s on: in a 1.2 s
      clip a bird seen at 0.5 s and at 0.4 s gives a span whose first
      instant is after its last. */
  lemma UnsortedCheckpoints()
    ensures var probe: Probe := t => if t == 0.5 || t == 0.4 then Bird else NoBird;
            BirdSpan(probe, 1.2, None) == Some((0.5, 0.4))
  {
    var probe: Probe := t => if t == 0.5 || t == 0.4 then Bird else NoBird;
    var times := Checkpoints(1.2);
    assert times == [0.0, 0.5, 0.4, 0.8, 1.0];
    assert probe(0.0) == NoBird && probe(0.5) == Bird && probe(0.4) == Bird;
    assert probe(0.8) == NoBird && probe(1.0) == NoBird;
    assert [0.0, 0.5][..1] == [0.0];
    assert [0.0, 0.5, 0.4][..2] == [0.0, 0.5];
    assert [0.0, 0.5, 0.4, 0.8][..3] == [0.0, 0.5, 0.4];
    assert times[..4] == [0.0, 0.5, 0.4, 0.8];
    assert Scan(probe, [0.0]) == NoneSeen;
    assert Scan(probe, [0.0, 0.5]) == Seen(0.5, 0.5);
    assert Scan(probe, [0.0, 0.5, 0.4]) == Seen(0.5, 0.4);
    assert Scan(probe, [0.0, 0.5, 0.4, 0.8]) == Seen(0.5, 0.4);
    assert Scan(probe, times) == Seen(0.5, 0.4);
  }

  // ---------------------------------------------------------------------
  // ffmpeg commands, concatenate_simple and concatenate_with_crossfade
  // ---------------------------------------------------------------------

  /** A stream in the crossfade filter graph: `{i}:v`/`{i}:a` for input i,
      `v{k}`/`a{k}` for the k-th intermediate result, `vout`/`aout` for the
      final one. */
  datatype Label = InputStream(index: nat, audio: bool) | Stage(index: nat, audio: bool) | Output(audio: bool)

  /** One transition of the graph: joins `prev` and `curr` into `out`.  A
      video fade starts at an offset into the running output; an audio
      crossfade has only its duration. */
  datatype Fade =
    | Xfade(prev: Label, curr: Label, out: Label, duration: real, offset: real)
    | Acrossfade(prev: Label, curr: Label, out: Label, duration: real)

  /** The ffmpeg runs the module makes; `ConcatList` carries the contents of
      the list file handed to the concat demuxer. */
  datatype Command =
    | ExtractCmd(start: real, clip: string, length: real, output: string)
    | CopyCmd(input: string, output: string)
    | CrossfadeCmd(inputs: seq<string>, filters: seq<Fade>, output: string)
    | ConcatList(listing: string, output: string)

  /** Whether an ffmpeg run exits with status 0. */
  type Ffmpeg = Command -> bool

  /** `extract_segment`: re-encode `duration` seconds of the clip from the
      segment's start. */
  function ExtractCommand(segment: Segment, output: string): Command {
    ExtractCmd(segment.startTime, segment.clipPath, segment.Duration(), output)
  }

  /** The running length of the crossfaded output before input `i` is
      joined: the first duration, then each later one less the overlap. */
  function Cumulative(durations: seq<real>, crossfade: real, i: nat): real
    requires 1 <= i <= |durations|
  {
    if i == 1 then durations[0] else Cumulative(durations, crossfade, i - 1) + durations[i - 1] - crossfade
  }

  /** The offset of the i-th video fade, clamped at 0. */
  function Offset(durations: seq<real>, crossfade: real, i: nat): real
    requires 1 <= i <= |durations|
  {
    Max(0.0, Cumulative(durations, crossfade, i) - crossfade)
  }

  function PrevLabel(i: nat, audio: bool): Label
  {
    if i <= 1 then InputStream(0, audio) else Stage(i - 2, audio)
  }

  function OutLabel(n: nat, i: nat, audio: bool): Label
    requires i >= 1
  {
    if i < n - 1 then Stage(i - 1, audio) else Output(audio)
  }

  /** The fades that join input `i` (1 <= i < n) to what came before. */
  function VideoFade(durations: seq<real>, crossfade: real, i: nat): Fade
    requires 1 <= i <= |durations|
  {
    Xfade(PrevLabel(i, false), InputStream(i, false), OutLabel(|durations|, i, false),
          crossfade, Offset(durations, crossfade, i))
  }

  function AudioFade(n: nat, crossfade: real, i: nat): Fade
    requires i >= 1
  {
    Acrossfade(PrevLabel(i, true), InputStream(i, true), OutLabel(n, i, true), crossfade)
  }

  /** The loop of `concatenate_with_crossfade` that builds the two filter
      lists, carrying the cumulative duration from one input to the next. */
  method BuildFades(durations: seq<real>, crossfade: real) returns (video: seq<Fade>, audio: seq<Fade>)
    requires |durations| >= 2
    ensures |video| == |durations| - 1 && |audio| == |durations| - 1
    ensures forall k :: 0 <= k < |video| ==> video[k] == VideoFade(durations, crossfade, k + 1)
    ensures forall k :: 0 <= k < |audio| ==> audio[k] == AudioFade(|durations|, crossfade, k + 1)
  {
    var n := |durations|;
    var cumulative := durations[0];
    video, audio := [], [];
    for i := 1 to n
      invariant |video| == i - 1 && |audio| == i - 1
      invariant cumulative == Cumulative(durations, crossfade, i)
      invariant forall k :: 0 <= k < i - 1 ==> video[k] == VideoFade(durations, crossfade, k + 1)
      invariant forall k :: 0 <= k < i - 1 ==> audio[k] == AudioFade(n, crossfade, k + 1)
    {
      var offset := cumulative - crossfade;
      if offset < 0.0 {
        offset := 0.0;
      }
      var prevV, prevA;
      if i == 1 {
        prevV, prevA := InputStream(0, false), InputStream(0, true);
      } else {
        prevV, prevA := Stage(i - 2, false), Stage(i - 2, true);
      }
      var outV, outA;
      if i < n - 1 {
        outV, outA := Stage(i - 1, false), Stage(i - 1, true);
      } else {
        outV, outA := Output(false), Output(true);
      }
      video := video + [Xfade(prevV, InputStream(i, false), outV, crossfade, offset)];
      audio := audio + [Acrossfade(prevA, InputStream(i, true), outA, crossfade)];
      cumulative := cumulative + durations[i] - crossfade;
    }
  }

  /** A well-formed chain over `n` inputs: the first fade reads input 0,
      fade k reads input k + 1 and the previous fade's result, every
      intermediate result is consumed by the next fade, and the last one
      produces the output stream. */
  ghost predicate Chained(fades: seq<Fade>, n: nat, audio: bool) {
    && |fades| == n - 1 >= 1
    && fades[0].prev == InputStream(0, audio)
    && (forall k :: 0 <= k < |fades| ==> fades[k].curr == InputStream(k + 1, audio))
    && (forall k :: 0 <= k < |fades| - 1 ==> fades[k].out.Stage? && fades[k + 1].prev == fades[k].out)
    && (forall j, k :: 0 <= j < k < |fades| - 1 ==> fades[j].out != fades[k].out)
    && fades[|fades| - 1].out == Output(audio)
  }

  /** Both filter lists of `concatenate_with_crossfade` form such chains. */
  lemma FadesChained(durations: seq<real>, crossfade: real)
    requires |durations| >= 2
    ensures var n := |durations|;
            Chained(seq(n - 1, k requires 0 <= k < n - 1 => VideoFade(durations, crossfade, k + 1)), n, false) &&
            Chained(seq(n - 1, k requires 0 <= k < n - 1 => AudioFade(n, crossfade, k + 1)), n, true)
  {
  }

  /** The offset of fade i in closed form: the sum of the first i durations
      less i overlaps, clamped at 0. */
  lemma {:induction false} CumulativeClosedForm(durations: seq<real>, crossfade: real, i: nat)
    requires 1 <= i <= |durations|
    ensures Cumulative(durations, crossfade, i) == SumOf(durations[..i], (x: real) => x) - (i - 1) as real * crossfade
    ensures Offset(durations, crossfade, i) == Max(0.0, SumOf(durations[..i], (x: real) => x) - i as real * crossfade)
  {
    var id := (x: real) => x;
    if i > 1 {
      CumulativeClosedForm(durations, crossfade, i - 1);
      assert durations[..i][..i - 1] == durations[..i - 1];
    } else {
      assert durations[..1][..0] == [];
    }
  }

  /** Segments no shorter than the overlap never move a later fade earlier. */
  lemma OffsetsMonotone(durations: seq<real>, crossfade: real, i: nat)
    requires 1 <= i < |durations| && durations[i] >= crossfade
    ensures Offset(durations, crossfade, i) <= Offset(durations, crossfade, i + 1)
  {
  }

  /** One line of the concat demuxer's list file. */
  function ListEntry(file: string): string {
    "file '" + file + "'"
  }

  /** The list file `concatenate_simple` writes: one line per file, in order. */
  function Listing(files: seq<string>): string {
    if files == [] then [] else ListEntry(files[0]) + ['\n'] + Listing(files[1..])
  }

  /** Reads a list file back: its lines, each stripped of the `file '...'`
      quoting; None for a line without it. */
  function ParseListing(listing: string): Option<seq<string>> {
    var lines := Split(listing, '\n');
    UnquoteAll(if lines[|lines| - 1] == [] then lines[..|lines| - 1] else lines)
  }

  function UnquoteAll(lines: seq<string>): Option<seq<string>> {
    if lines == [] then Some([])
    else
      var line := lines[0];
      if |line| >= 7 && StartsWith(line, "file '") && line[|line| - 1] == '\'' then
        match UnquoteAll(lines[1..])
        case None => None
        case Some(rest) => Some([line[6..|line| - 1]] + rest)
      else None
  }

  /** The list file names exactly the files, in order, when no name holds a
      newline or a quote (the temporary segment names never do). */
  lemma {:induction false} ListingRoundTrip(files: seq<string>)
    requires forall i :: 0 <= i < |files| ==> '\n' !in files[i] && '\'' !in files[i]
    ensures ParseListing(Listing(files)) == Some(files)
  {
    LinesOfListing(files);
    var lines := Split(Listing(files), '\n');
    assert lines[..|lines| - 1] == seq(|files|, i requires 0 <= i < |files| => ListEntry(files[i]));
    UnquoteEntries(files);
  }

  lemma {:induction false} LinesOfListing(files: seq<string>)
    requires forall i :: 0 <= i < |files| ==> '\n' !in files[i]
    ensures Split(Listing(files), '\n') == seq(|files|, i requires 0 <= i < |files| => ListEntry(files[i])) + [[]]
  {
    if files != [] {
      LinesOfListing(files[1..]);
      assert '\n' !in ListEntry(files[0]) by {
        assert ListEntry(files[0]) == "file '" + files[0] + "'";
      }
      SplitLine(ListEntry(files[0]), Listing(files[1..]), '\n');
    }
  }

  lemma {:induction false} UnquoteEntries(files: seq<string>)
    ensures UnquoteAll(seq(|files|, i requires 0 <= i < |files| => ListEntry(files[i]))) == Some(files)
  {
    var lines := seq(|files|, i requires 0 <= i < |files| => ListEntry(files[i]));
    if files != [] {
      assert lines[1..] == seq(|files| - 1, i requires 0 <= i < |files| - 1 => ListEntry(files[1..][i]));
      UnquoteEntries(files[1..]);
      var line := ListEntry(files[0]);
      assert lines[0] == line && |line| >= 7;
      assert line[6..|line| - 1] == files[0];
      assert StartsWith(line, "file '") && line[|line| - 1] == '\'';
      assert [files[0]] + files[1..] == files;
    }
  }

  /** `concatenate_simple`: one concat-demuxer run over the list file. */
  function ConcatenateSimple(files: seq<string>, output: string, ffmpeg: Ffmpeg): bool {
    ffmpeg(ConcatList(Listing(files), output))
  }

  /** The crossfade run over `n >= 2` files: every file as an input, then the
      video chain followed by the audio chain. */
  function CrossfadeCommand(files: seq<string>, output: string, crossfade: real,
                            durationOf: string -> real): Command
    requires |files| >= 2
  {
    var durations := seq(|files|, i requires 0 <= i < |files| => durationOf(files[i]));
    var n := |files|;
    CrossfadeCmd(files,
                 seq(n - 1, k requires 0 <= k < n - 1 => VideoFade(durations, crossfade, k + 1)) +
                 seq(n - 1, k requires 0 <= k < n - 1 => AudioFade(n, crossfade, k + 1)),
                 output)
  }

  /** What a concatenation did: its result and the ffmpeg runs, in order. */
  datatype Attempt = Attempt(ok: bool, runs: seq<Command>)

  /** `concatenate_with_crossfade`: nothing to join fails without running
      ffmpeg; one file is stream-copied; otherwise the crossfade run, with
      the plain concatenation as fallback when it fails. */
  function ConcatenateWithCrossfade(files: seq<string>, output: string, crossfade: real,
                                    durationOf: string -> real, ffmpeg: Ffmpeg): Attempt
  {
    if files == [] then Attempt(false, [])
    else if |files| == 1 then
      var copy := CopyCmd(files[0], output);
      Attempt(ffmpeg(copy), [copy])
    else
      var fade := CrossfadeCommand(files, output, crossfade, durationOf);
      if ffmpeg(fade) then Attempt(true, [fade])
      else
        var concat := ConcatList(Listing(files), output);
        Attempt(ffmpeg(concat), [fade, concat])
  }

  method ConcatenateWithCrossfadeRun(files: seq<string>, output: string, crossfade: real,
                                     durationOf: string -> real, ffmpeg: Ffmpeg) returns (ok: bool, runs: seq<Command>)
    ensures Attempt(ok, runs) == ConcatenateWithCrossfade(files, output, crossfade, durationOf, ffmpeg)
  {
    if |files| == 0 {
      return false, [];
    }
    if |files| == 1 {
      var copy := CopyCmd(files[0], output);
      return ffmpeg(copy), [copy];
    }
    var durations: seq<real> := [];
    for i := 0 to |files|
      invariant durations == seq(i, j requires 0 <= j < i => durationOf(files[j]))
    {
      durations := durations + [durationOf(files[i])];
    }
    var video, audio := BuildFades(durations, crossfade);
    var fade := CrossfadeCmd(files, video + audio, output);
    assert fade == CrossfadeCommand(files, output, crossfade, durationOf);
    if ffmpeg(fade) {
      return true, [fade];
    }
    var concat := ConcatList(Listing(files), output);
    ok := ffmpeg(concat);
    runs := [fade, concat];
  }

  /** The outcome of a concatenation: it succeeds exactly when its last run
      does; no file means no run, one file a single copy, and the plain
      concatenation of the same files, in order, runs only after the
      crossfade run has failed. */
  lemma ConcatenationOutcome(files: seq<string>, output: string, crossfade: real,
                             durationOf: string -> real, ffmpeg: Ffmpeg)
    requires forall i :: 0 <= i < |files| ==> '\n' !in files[i] && '\'' !in files[i]
    ensures var a := ConcatenateWithCrossfade(files, output, crossfade, durationOf, ffmpeg);
            && (a.runs == [] <==> files == [])
            && (a.ok <==> a.runs != [] && ffmpeg(a.runs[|a.runs| - 1]))
            && (|files| == 1 ==> a.runs == [CopyCmd(files[0], output)])
            && (|files| >= 2 ==> a.runs[0].CrossfadeCmd? && a.runs[0].inputs == files &&
                                 |a.runs[0].filters| == 2 * (|files| - 1))
            && (|a.runs| == 2 ==> !ffmpeg(a.runs[0]) && a.runs[1].ConcatList? &&
                                  ParseListing(a.runs[1].listing) == Some(files))
  {
    ListingRoundTrip(files);
  }

  // ---------------------------------------------------------------------
  // generate_highlights
  // ---------------------------------------------------------------------

  datatype HighlightsStats = HighlightsStats(originalDuration: real, birdClipsDuration: real,
                                             finalDuration: real, clipCount: nat, segmentCount: nat)

  /** The ValueErrors (no clips, no segment, no extraction) and the
      RuntimeError (concatenation failed) of `generate_highlights`. */
  datatype HighlightsError = NoClips | NoSegments | NoExtraction | ConcatenationFailed

  /** One run's settings and surroundings: the input directory, the output
      and temporary paths, the buffers and crossfade, the cached first
      sightings (None when no cache was loaded), what each path opens as,
      and ffmpeg. */
  datatype HighlightsJob = HighlightsJob(
    inputDir: string, output: string, tempDir: string,
    bufferBefore: real, bufferAfter: real, crossfade: real,
    cache: Option<map<string, Option<real>>>,
    videos: string -> Video, ffmpeg: Ffmpeg)

  function ClipPath(job: HighlightsJob, name: string): string {
    job.inputDir + "/" + name
  }

  /** `get_video_duration` of a path. */
  function DurationOf(job: HighlightsJob): string -> real {
    (path: string) => VideoDuration(job.videos(path))
  }

  function ClipDuration(job: HighlightsJob): string -> real {
    (name: string) => VideoDuration(job.videos(ClipPath(job, name)))
  }

  /** The cached first sighting of a clip, when there is a cache entry with one. */
  function KnownFirstBird(job: HighlightsJob, name: string): Option<real> {
    if job.cache.Some? && name in job.cache.value then job.cache.value[name] else None
  }

  function ClipSegments(job: HighlightsJob, name: string): seq<Segment> {
    var path := ClipPath(job, name);
    BirdSegments(path, job.videos(path), job.bufferBefore, job.bufferAfter, KnownFirstBird(job, name))
  }

  /** The segments of the clips, in clip order. */
  function FoundSegments(job: HighlightsJob, clips: seq<string>): seq<Segment> {
    if clips == [] then []
    else FoundSegments(job, clips[..|clips| - 1]) + ClipSegments(job, clips[|clips| - 1])
  }

  /** The summed duration of the clips that gave a segment. */
  function BirdClipsDuration(job: HighlightsJob, clips: seq<string>): real {
    if clips == [] then 0.0
    else
      var last := clips[|clips| - 1];
      BirdClipsDuration(job, clips[..|clips| - 1]) +
      (if ClipSegments(job, last) != [] then ClipDuration(job)(last) else 0.0)
  }

  /** `segment_{i:04d}.mp4` in the temporary directory. */
  function SegmentFile(job: HighlightsJob, i: nat): string {
    job.tempDir + "/segment_" + ZeroPad(i, 4) + ".mp4"
  }

  function Extracts(job: HighlightsJob, segments: seq<Segment>, i: nat): bool
    requires i < |segments|
  {
    job.ffmpeg(ExtractCommand(segments[i], SegmentFile(job, i)))
  }

  /** The files of the first `k` segments whose extraction succeeded. */
  function ExtractedFiles(job: HighlightsJob, segments: seq<Segment>, k: nat): seq<string>
    requires k <= |segments|
  {
    if k == 0 then []
    else ExtractedFiles(job, segments, k - 1) +
         (if Extracts(job, segments, k - 1) then [SegmentFile(job, k - 1)] else [])
  }

  /** `generate_highlights`. */
  function GenerateHighlights(job: HighlightsJob, clipNames: seq<string>): Result<HighlightsStats, HighlightsError> {
    var clips := SortStrings(clipNames);
    if clips == [] then Err(NoClips)
    else
      var segments := FoundSegments(job, clips);
      if segments == [] then Err(NoSegments)
      else
        var files := ExtractedFiles(job, segments, |segments|);
        if files == [] then Err(NoExtraction)
        else if !ConcatenateWithCrossfade(files, job.output, job.crossfade, DurationOf(job), job.ffmpeg).ok then
          Err(ConcatenationFailed)
        else
          Ok(HighlightsStats(SumOf(clips, ClipDuration(job)), BirdClipsDuration(job, clips),
                             VideoDuration(job.videos(job.output)), |clips|, |segments|))
  }

  /** `sum(get_video_duration(c) for c in clips)`. */
  method SumClipDurations(job: HighlightsJob, clips: seq<string>) returns (total: real)
    ensures total == SumOf(clips, ClipDuration(job))
  {
    total := 0.0;
    for i := 0 to |clips|
      invariant total == SumOf(clips[..i], ClipDuration(job))
    {
      assert clips[..i + 1][..i] == clips[..i];
      total := total + VideoDuration(job.videos(ClipPath(job, clips[i])));
    }
    assert clips[..|clips|] == clips;
  }

  /** The loop that runs `find_bird_segments` on every clip, collecting the
      segments and the duration of the clips that gave one. */
  method CollectSegments(job: HighlightsJob, clips: seq<string>)
    returns (allSegments: seq<Segment>, birdClipsDuration: real)
    ensures allSegments == FoundSegments(job, clips)
    ensures birdClipsDuration == BirdClipsDuration(job, clips)
  {
    allSegments, birdClipsDuration := [], 0.0;
    for i := 0 to |clips|
      invariant allSegments == FoundSegments(job, clips[..i])
      invariant birdClipsDuration == BirdClipsDuration(job, clips[..i])
    {
      assert clips[..i + 1][..i] == clips[..i];
      var path := ClipPath(job, clips[i]);
      var segments := FindBirdSegments(path, job.videos(path), job.bufferBefore, job.bufferAfter,
                                       KnownFirstBird(job, clips[i]));
      if segments != [] {
        birdClipsDuration := birdClipsDuration + VideoDuration(job.videos(path));
        allSegments := allSegments + segments;
      }
    }
    assert clips[..|clips|] == clips;
  }

  /** The loop that extracts every segment, keeping the files that succeeded. */
  method ExtractAll(job: HighlightsJob, segments: seq<Segment>) returns (files: seq<string>)
    ensures files == ExtractedFiles(job, segments, |segments|)
  {
    files := [];
    for i := 0 to |segments|
      invariant files == ExtractedFiles(job, segments, i)
    {
      var segPath := SegmentFile(job, i);
      if job.ffmpeg(ExtractCommand(segments[i], segPath)) {
        files := files + [segPath];
      }
    }
  }

  method GenerateHighlightsRun(job: HighlightsJob, clipNames: seq<string>)
    returns (r: Result<HighlightsStats, HighlightsError>)
    ensures r == GenerateHighlights(job, clipNames)
  {
    var clips := SortStrings(clipNames);
    if |clips| == 0 {
      return Err(NoClips);
    }
    var originalDuration := SumClipDurations(job, clips);
    var allSegments, birdClipsDuration := CollectSegments(job, clips);
    if |allSegments| == 0 {
      return Err(NoSegments);
    }
    var segmentFiles := ExtractAll(job, allSegments);
    if |segmentFiles| == 0 {
      return Err(NoExtraction);
    }
    var ok, _ := ConcatenateWithCrossfadeRun(segmentFiles, job.output, job.crossfade, DurationOf(job), job.ffmpeg);
    if !ok {
      return Err(ConcatenationFailed);
    }
    r := Ok(HighlightsStats(originalDuration, birdClipsDuration, VideoDuration(job.videos(job.output)),
                            |clips|, |allSegments|));
  }

  /** The clips are taken in sorted order, so the directory listing's order
      does not matter. */
  lemma HighlightsOrderIndependent(job: HighlightsJob, a: seq<string>, b: seq<string>)
    requires multiset(a) == multiset(b)
    ensures GenerateHighlights(job, a) == GenerateHighlights(job, b)
  {
    SortStringsCanonical(a, b);
  }

  /** Each clip contributes at most one segment, so there are no more
      segments than clips, and none at all exactly when no clip gives one. */
  lemma {:induction false} FoundSegmentsPerClip(job: HighlightsJob, clips: seq<string>)
    ensures |FoundSegments(job, clips)| <= |clips|
    ensures FoundSegments(job, clips) == [] <==> forall i :: 0 <= i < |clips| ==> ClipSegments(job, clips[i]) == []
  {
    if clips != [] {
      var init := clips[..|clips| - 1];
      FoundSegmentsPerClip(job, init);
      var path := ClipPath(job, clips[|clips| - 1]);
      BirdSegmentsShape(path, job.videos(path), job.bufferBefore, job.bufferAfter, KnownFirstBird(job, clips[|clips| - 1]));
      assert forall i :: 0 <= i < |init| ==> init[i] == clips[i];
    }
  }

  /** The bird clips' duration is part of the original duration: it is
      never negative and never more than the total when no clip reports a
      negative frame count. */
  lemma {:induction false} BirdClipsWithinOriginal(job: HighlightsJob, clips: seq<string>)
    requires forall i :: 0 <= i < |clips| ==> job.videos(ClipPath(job, clips[i])).frameCount >= 0.0
    ensures 0.0 <= BirdClipsDuration(job, clips) <= SumOf(clips, ClipDuration(job))
  {
    if clips != [] {
      var init := clips[..|clips| - 1];
      var last := clips[|clips| - 1];
      assert forall i :: 0 <= i < |init| ==> init[i] == clips[i];
      BirdClipsWithinOriginal(job, init);
      var v := job.videos(ClipPath(job, last));
      assert VideoDuration(v) >= 0.0 by {
        if v.isOpened && v.fps > 0.0 {
          DivMonotone(0.0, v.frameCount, v.fps);
        }
      }
    }
  }

  /** Distinct indices give distinct segment files. */
  lemma SegmentFilesDistinct(job: HighlightsJob, i: nat, j: nat)
    requires SegmentFile(job, i) == SegmentFile(job, j)
    ensures i == j
  {
    var head := job.tempDir + "/segment_";
    var a, b := SegmentFile(job, i), SegmentFile(job, j);
    assert |a| == |b|;
    assert a == head + ZeroPad(i, 4) + ".mp4";
    assert b == head + ZeroPad(j, 4) + ".mp4";
    assert ZeroPad(i, 4) == a[|head|..|a| - 4] == b[|head|..|b| - 4] == ZeroPad(j, 4);
    ZeroPadRoundTrip(i, 4);
    ZeroPadRoundTrip(j, 4);
  }

  /** The extracted files are the files of exactly the segments whose
      extraction succeeded, in segment order: `idx` lists their indices. */
  lemma {:induction false} ExtractedInOrder(job: HighlightsJob, segments: seq<Segment>, k: nat) returns (idx: seq<nat>)
    requires k <= |segments|
    ensures var files := ExtractedFiles(job, segments, k);
            && |idx| == |files|
            && (forall p :: 0 <= p < |idx| ==> idx[p] < k && Extracts(job, segments, idx[p]) &&
                                               files[p] == SegmentFile(job, idx[p]))
            && (forall p, q :: 0 <= p < q < |idx| ==> idx[p] < idx[q])
            && (forall i :: 0 <= i < k && Extracts(job, segments, i) ==> i in idx)
  {
    if k == 0 {
      idx := [];
    } else {
      var prev := ExtractedInOrder(job, segments, k - 1);
      var before := ExtractedFiles(job, segments, k - 1);
      if Extracts(job, segments, k - 1) {
        idx := prev + [k - 1];
        assert ExtractedFiles(job, segments, k) == before + [SegmentFile(job, k - 1)];
      } else {
        idx := prev;
        assert ExtractedFiles(job, segments, k) == before;
      }
      assert forall i :: 0 <= i < k - 1 && Extracts(job, segments, i) ==> i in prev;
    }
  }

  /** What each error means: no clip; no clip with a segment; no segment
      extracted; or the concatenation of the extracted files failed.  On
      success the counts are the clips and the segments found, whether or
      not every one was extracted. */
  lemma HighlightsOutcome(job: HighlightsJob, clipNames: seq<string>)
    ensures var r := GenerateHighlights(job, clipNames);
            var clips := SortStrings(clipNames);
            var segments := FoundSegments(job, clips);
            var files := ExtractedFiles(job, segments, |segments|);
            && (r == Err(NoClips) <==> clipNames == [])
            && (r == Err(NoSegments) <==>
                  clipNames != [] && forall i :: 0 <= i < |clipNames| ==> ClipSegments(job, clipNames[i]) == [])
            && (r == Err(NoExtraction) <==>
                  segments != [] && forall i :: 0 <= i < |segments| ==> !Extracts(job, segments, i))
            && (r == Err(ConcatenationFailed) <==>
                  files != [] && !ConcatenateWithCrossfade(files, job.output, job.crossfade, DurationOf(job), job.ffmpeg).ok)
            && (r.Ok? ==> r.value.clipCount == |clipNames| && r.value.segmentCount == |segments| &&
                          1 <= |segments| <= |clipNames|)
  {
    var clips := SortStrings(clipNames);
    ClipsWithoutSegments(job, clipNames);
    var segments := FoundSegments(job, clips);
    NothingExtracted(job, segments);
  }

  /** Sorting keeps the clips: there is none exactly when none was given,
      and no clip gives a segment exactly when no listed clip does. */
  lemma ClipsWithoutSegments(job: HighlightsJob, clipNames: seq<string>)
    ensures var clips := SortStrings(clipNames);
            && (clips == [] <==> clipNames == [])
            && |FoundSegments(job, clips)| <= |clipNames|
            && (FoundSegments(job, clips) == [] <==>
                  forall i :: 0 <= i < |clipNames| ==> ClipSegments(job, clipNames[i]) == [])
  {
    var clips := SortStrings(clipNames);
    SortStringsSpec(clipNames);
    assert |clips| == |clipNames|;
    FoundSegmentsPerClip(job, clips);
    AllOfPermutation(clips, clipNames, (name: string) => ClipSegments(job, name) == []);
  }

  /** No file is extracted exactly when every extraction fails. */
  lemma NothingExtracted(job: HighlightsJob, segments: seq<Segment>)
    ensures ExtractedFiles(job, segments, |segments|) == [] <==>
              forall i :: 0 <= i < |segments| ==> !Extracts(job, segments, i)
  {
    var idx := ExtractedInOrder(job, segments, |segments|);
    if idx != [] {
      assert Extracts(job, segments, idx[0]);
    }
  }
}
