/** The best-clip finder of `best_clips.py`: for one species, the window of
    `w` seconds whose detections have the largest summed confidence, found by
    a sliding-window sweep over the detections sorted by timestamp. */
module BestClips {
  import opened Prelude
  import opened Seqs
  import opened Numbers

  /** One entry of the `detections` list of species.json. */
  datatype Detection = Detection(timestamp: real, species: string, confidence: real)

  /** The best window of one species: `[startS, endS]`, its rounded summed
      confidence and the number of detections the sweep counted in it. */
  datatype BestClip = BestClip(species: string, startS: real, endS: real, score: real, detectionCount: nat)

  function ByTime(a: Detection, b: Detection): bool { a.timestamp <= b.timestamp }

  function Confidence(d: Detection): real { d.confidence }

  function SpeciesTest(species: string): Detection -> bool {
    (d: Detection) => d.species == species
  }

  function SpanTest(lo: real, hi: real): Detection -> bool {
    (d: Detection) => lo <= d.timestamp <= hi
  }

  function SpeciesSpanTest(species: string, lo: real, hi: real): Detection -> bool {
    (d: Detection) => d.species == species && lo <= d.timestamp <= hi
  }

  lemma ByTimeTotal()
    ensures TotalPreorder(ByTime)
  {
  }

  /** The detections of one species, stably sorted by timestamp. */
  function SortedSpecies(ds: seq<Detection>, species: string): seq<Detection> {
    SortBy(Filter(ds, SpeciesTest(species)), ByTime)
  }

  // ---------------------------------------------------------------------
  // Window scores over a time-sorted list
  // ---------------------------------------------------------------------

  /** Summed confidence of the detections at positions `i..j`. */
  function RangeScore(s: seq<Detection>, i: nat, j: nat): real
    requires i <= j <= |s|
    decreases j - i
  {
    if i == j then 0.0 else RangeScore(s, i, j - 1) + s[j - 1].confidence
  }

  lemma {:induction false} RangeScoreSplit(s: seq<Detection>, i: nat, k: nat, j: nat)
    requires i <= k <= j <= |s|
    ensures RangeScore(s, i, j) == RangeScore(s, i, k) + RangeScore(s, k, j)
    decreases j - k
  {
    if k < j {
      RangeScoreSplit(s, i, k, j - 1);
    }
  }

  lemma RangeScoreSingle(s: seq<Detection>, i: nat)
    requires i < |s|
    ensures RangeScore(s, i, i + 1) == s[i].confidence
  {
  }

  /** Dropping the first detection of a range takes its confidence off the score. */
  lemma RangeScoreDropFirst(s: seq<Detection>, i: nat, j: nat)
    requires i < j <= |s|
    ensures RangeScore(s, i + 1, j) == RangeScore(s, i, j) - s[i].confidence
  {
    RangeScoreSplit(s, i, i + 1, j);
    RangeScoreSingle(s, i);
  }

  /** The range score is the `sum` of the confidences of the slice. */
  lemma {:induction false} RangeScoreIsSum(s: seq<Detection>, i: nat, j: nat)
    requires i <= j <= |s|
    ensures RangeScore(s, i, j) == SumOf(s[i..j], Confidence)
    decreases j - i
  {
    if i < j {
      RangeScoreIsSum(s, i, j - 1);
      assert s[i..j][..j - i - 1] == s[i..j - 1];
    }
  }

  ghost predicate NonNegative(s: seq<Detection>) {
    forall k :: 0 <= k < |s| ==> s[k].confidence >= 0.0
  }

  ghost predicate Positive(s: seq<Detection>) {
    forall k :: 0 <= k < |s| ==> s[k].confidence > 0.0
  }

  lemma {:induction false} RangeScoreNonNegative(s: seq<Detection>, i: nat, j: nat)
    requires i <= j <= |s| && NonNegative(s)
    ensures RangeScore(s, i, j) >= 0.0
    decreases j - i
  {
    if i < j {
      RangeScoreSplit(s, i, i + 1, j);
      RangeScoreSingle(s, i);
      RangeScoreNonNegative(s, i + 1, j);
    }
  }

  lemma RangeScorePositive(s: seq<Detection>, i: nat, j: nat)
    requires i < j <= |s| && Positive(s)
    ensures RangeScore(s, i, j) > 0.0
  {
    RangeScoreSplit(s, i, i + 1, j);
    RangeScoreSingle(s, i);
    RangeScoreNonNegative(s, i + 1, j);
  }

  /** The left edge of the window that ends at detection `e`: the first
      position whose timestamp is at most `w` seconds before `s[e]`. */
  function WindowStart(s: seq<Detection>, e: nat, w: real): (j: nat)
    requires e < |s| && w >= 0.0
    ensures j <= e
    ensures s[e].timestamp - s[j].timestamp <= w
  {
    WindowStartFrom(s, e, w, 0)
  }

  function WindowStartFrom(s: seq<Detection>, e: nat, w: real, i: nat): (j: nat)
    requires i <= e < |s| && w >= 0.0
    ensures i <= j <= e
    ensures s[e].timestamp - s[j].timestamp <= w
    decreases e - i
  {
    if s[e].timestamp - s[i].timestamp <= w then i else WindowStartFrom(s, e, w, i + 1)
  }

  /** No position before the left edge is within `w` seconds of `s[e]`. */
  lemma WindowStartLeast(s: seq<Detection>, e: nat, w: real, k: nat)
    requires e < |s| && w >= 0.0 && k <= e && s[e].timestamp - s[k].timestamp <= w
    ensures WindowStart(s, e, w) <= k
  {
    WindowStartFromLeast(s, e, w, 0, k);
  }

  lemma {:induction false} WindowStartFromLeast(s: seq<Detection>, e: nat, w: real, i: nat, k: nat)
    requires i <= k <= e < |s| && w >= 0.0 && s[e].timestamp - s[k].timestamp <= w
    ensures WindowStartFrom(s, e, w, i) <= k
    decreases e - i
  {
    if s[e].timestamp - s[i].timestamp > w {
      WindowStartFromLeast(s, e, w, i + 1, k);
    }
  }

  /** Summed confidence of the window that ends at detection `e`. */
  function WindowScore(s: seq<Detection>, e: nat, w: real): real
    requires e < |s| && w >= 0.0
  {
    RangeScore(s, WindowStart(s, e, w), e + 1)
  }

  /** On a time-sorted list the left edge never moves back as the right edge advances. */
  lemma WindowStartMonotone(s: seq<Detection>, e: nat, w: real)
    requires 0 < e < |s| && w >= 0.0 && SortedBy(s, ByTime)
    ensures WindowStart(s, e - 1, w) <= WindowStart(s, e, w)
  {
    var j := WindowStart(s, e, w);
    if j < e {
      assert ByTime(s[e - 1], s[e]);
      WindowStartLeast(s, e - 1, w, j);
    }
  }

  /** The chosen window, as the sweep's `best_start_idx`, `best_count` and `best_score`. */
  datatype Window = Window(start: nat, count: nat, score: real)

  /** The window the sweep holds after the windows ending at the first `k`
      detections: replaced whenever a window scores strictly more. */
  function BestUpTo(s: seq<Detection>, w: real, k: nat): (b: Window)
    requires w >= 0.0 && k <= |s|
    ensures b.count == 0 ==> b.start == 0
    ensures b.count > 0 ==> b.start + b.count <= k
  {
    if k == 0 then Window(0, 0, 0.0)
    else
      var b := BestUpTo(s, w, k - 1);
      var j := WindowStart(s, k - 1, w);
      var sc := WindowScore(s, k - 1, w);
      if sc > b.score then Window(j, k - j, sc) else b
  }

  /** The held window is the empty window at position 0 with score 0, or a
      window ending at some detection, starting at that window's left edge
      and scoring more than 0. */
  lemma {:induction false} BestUpToValid(s: seq<Detection>, w: real, k: nat)
    requires w >= 0.0 && k <= |s|
    ensures var b := BestUpTo(s, w, k);
            && b.score >= 0.0
            && (b.count == 0 ==> b == Window(0, 0, 0.0))
            && (b.count > 0 ==>
                  && b.start == WindowStart(s, b.start + b.count - 1, w)
                  && b.score == WindowScore(s, b.start + b.count - 1, w)
                  && b.score > 0.0)
  {
    if k > 0 {
      BestUpToValid(s, w, k - 1);
    }
  }

  /** No window ending at one of the first `k` detections scores above the held one. */
  lemma {:induction false} BestUpToOptimal(s: seq<Detection>, w: real, k: nat)
    requires w >= 0.0 && k <= |s|
    ensures forall e :: 0 <= e < k ==> WindowScore(s, e, w) <= BestUpTo(s, w, k).score
  {
    if k > 0 {
      BestUpToOptimal(s, w, k - 1);
    }
  }

  /** Ties keep the earlier window: every window ending before the held one
      scores strictly less. */
  lemma {:induction false} BestUpToEarliest(s: seq<Detection>, w: real, k: nat)
    requires w >= 0.0 && k <= |s|
    ensures var b := BestUpTo(s, w, k);
            b.count > 0 ==> forall e :: 0 <= e < b.start + b.count - 1 ==> WindowScore(s, e, w) < b.score
  {
    if k > 0 {
      BestUpToEarliest(s, w, k - 1);
      BestUpToOptimal(s, w, k - 1);
      BestUpToValid(s, w, k);
    }
  }

  /** The held window, when not empty, ends inside the list, spans at most
      `w` seconds and is scored with the sum of its confidences. */
  lemma BestWindowFacts(s: seq<Detection>, w: real)
    requires w >= 0.0
    ensures var b := BestUpTo(s, w, |s|);
            b.count > 0 ==>
              && b.start + b.count <= |s|
              && s[b.start + b.count - 1].timestamp - s[b.start].timestamp <= w
              && b.score == RangeScore(s, b.start, b.start + b.count)
  {
    BestUpToValid(s, w, |s|);
  }

  /** No window ending at `e` scores above the held one. */
  lemma BestOptimalAt(s: seq<Detection>, w: real, e: nat)
    requires w >= 0.0 && e < |s|
    ensures WindowScore(s, e, w) <= BestUpTo(s, w, |s|).score
  {
    BestUpToOptimal(s, w, |s|);
  }

  /** The inner loop of the sweep: moves the left edge forward, taking each
      dropped detection's confidence off the running score, until the window
      ending at `e` spans at most `w` seconds. */
  method AdvanceStart(s: seq<Detection>, w: real, e: nat, start0: nat, current0: real)
    returns (start: nat, current: real)
    requires w >= 0.0 && e < |s| && start0 <= WindowStart(s, e, w)
    requires current0 == RangeScore(s, start0, e + 1)
    ensures start == WindowStart(s, e, w) && current == WindowScore(s, e, w)
  {
    start, current := start0, current0;
    while s[e].timestamp - s[start].timestamp > w
      invariant start <= WindowStart(s, e, w)
      invariant current == RangeScore(s, start, e + 1)
      decreases e - start
    {
      RangeScoreDropFirst(s, start, e + 1);
      current := current - s[start].confidence;
      start := start + 1;
    }
    WindowStartLeast(s, e, w, start);
  }

  /** The sliding-window sweep of `find_best_clip_for_species` over a time-sorted list. */
  method Sweep(s: seq<Detection>, w: real) returns (bestStart: nat, bestCount: nat, bestScore: real)
    requires w >= 0.0 && SortedBy(s, ByTime)
    ensures Window(bestStart, bestCount, bestScore) == BestUpTo(s, w, |s|)
  {
    bestScore, bestStart, bestCount := 0.0, 0, 0;
    var current := 0.0;
    var start: nat := 0;
    for e := 0 to |s|
      invariant e == 0 ==> start == 0
      invariant e > 0 ==> start == WindowStart(s, e - 1, w)
      invariant current == RangeScore(s, start, e)
      invariant Window(bestStart, bestCount, bestScore) == BestUpTo(s, w, e)
    {
      if e > 0 {
        WindowStartMonotone(s, e, w);
      }
      start, current := AdvanceStart(s, w, e, start, current + s[e].confidence);
      if current > bestScore {
        bestScore := current;
        bestStart := start;
        bestCount := e - start + 1;
      }
    }
  }

  // ---------------------------------------------------------------------
  // find_best_clip_for_species
  // ---------------------------------------------------------------------

  /** The clip reported for `s`, the detections of `species` in time order. */
  function ClipOf(s: seq<Detection>, species: string, w: real): Option<BestClip>
    requires w >= 0.0
  {
    if s == [] then None
    else
      var b := BestUpTo(s, w, |s|);
      Some(BestClip(species, s[b.start].timestamp, s[b.start].timestamp + w, Round(b.score, 3), b.count))
  }

  /** The best clip of `species` for windows of `w` seconds, or None when
      the species has no detection. */
  function FindBestClip(ds: seq<Detection>, species: string, w: real): Option<BestClip>
    requires w >= 0.0
  {
    ClipOf(SortedSpecies(ds, species), species, w)
  }

  method FindBestClipForSpecies(ds: seq<Detection>, species: string, w: real) returns (r: Option<BestClip>)
    requires w >= 0.0
    ensures r == FindBestClip(ds, species, w)
  {
    var s := Filter(ds, SpeciesTest(species));
    if s == [] {
      return None;
    }
    s := SortBy(s, ByTime);
    ByTimeTotal();
    SortSorted(Filter(ds, SpeciesTest(species)), ByTime);
    var start, count, score := Sweep(s, w);
    r := Some(BestClip(species, s[start].timestamp, s[start].timestamp + w, Round(score, 3), count));
  }

  lemma SortedSpeciesSorted(ds: seq<Detection>, species: string)
    ensures SortedBy(SortedSpecies(ds, species), ByTime)
  {
    ByTimeTotal();
    SortSorted(Filter(ds, SpeciesTest(species)), ByTime);
  }

  lemma SortedSpeciesPermutes(ds: seq<Detection>, species: string)
    ensures multiset(SortedSpecies(ds, species)) == multiset(Filter(ds, SpeciesTest(species)))
  {
    SortPermutes(Filter(ds, SpeciesTest(species)), ByTime);
  }

  /** A list with the same elements as the species filter holds exactly the
      detections of that species. */
  lemma SpeciesMembers(s: seq<Detection>, ds: seq<Detection>, species: string)
    requires multiset(s) == multiset(Filter(ds, SpeciesTest(species)))
    ensures forall d :: d in s <==> d in ds && d.species == species
  {
    forall d ensures d in s <==> d in ds && d.species == species {
      FilterMembers(ds, SpeciesTest(species), d);
      assert d in s <==> d in multiset(s);
      assert d in Filter(ds, SpeciesTest(species)) <==> d in multiset(Filter(ds, SpeciesTest(species)));
    }
  }

  /** None exactly when no detection has the requested species. */
  lemma FindBestClipNone(ds: seq<Detection>, species: string, w: real)
    requires w >= 0.0
    ensures FindBestClip(ds, species, w).None? <==> forall i :: 0 <= i < |ds| ==> ds[i].species != species
  {
    var s := SortedSpecies(ds, species);
    SortedSpeciesPermutes(ds, species);
    SpeciesMembers(s, ds, species);
    if s == [] {
      forall i | 0 <= i < |ds| ensures ds[i].species != species {
        assert ds[i] in ds;
      }
    } else {
      assert s[0] in s;
      var i :| 0 <= i < |ds| && ds[i] == s[0];
    }
  }

  /** The clip starts at a detection of the species, lasts exactly `w`
      seconds and its score is non-negative. */
  lemma FindBestClipShape(ds: seq<Detection>, species: string, w: real)
    requires w >= 0.0 && FindBestClip(ds, species, w).Some?
    ensures var c := FindBestClip(ds, species, w).value;
            && c.species == species
            && c.endS == c.startS + w
            && c.score >= 0.0
            && (exists i :: 0 <= i < |ds| && ds[i].species == species && ds[i].timestamp == c.startS)
  {
    var s := SortedSpecies(ds, species);
    SortedSpeciesPermutes(ds, species);
    SpeciesMembers(s, ds, species);
    var b := BestUpTo(s, w, |s|);
    BestUpToValid(s, w, |s|);
    assert s[b.start] in s;
    var i :| 0 <= i < |ds| && ds[i] == s[b.start];
    RoundNonNegative(b.score, 3);
  }

  /** A single detection gives the window `[t, t + w]`, scored with its confidence. */
  lemma FindBestClipSingle(t: real, species: string, c: real, w: real)
    requires w >= 0.0 && c > 0.0
    ensures FindBestClip([Detection(t, species, c)], species, w)
         == Some(BestClip(species, t, t + w, Round(c, 3), 1))
  {
    var d := Detection(t, species, c);
    assert Filter([d], SpeciesTest(species)) == [d];
    assert SortedSpecies([d], species) == [d];
    RangeScoreSingle([d], 0);
    assert WindowStart([d], 0, w) == 0;
    assert BestUpTo([d], w, 1) == Window(0, 1, c);
  }

  // ---------------------------------------------------------------------
  // Optimality and exact membership
  // ---------------------------------------------------------------------

  /** The first position from `i` on whose timestamp is at least `t`. */
  function FirstAtLeast(s: seq<Detection>, t: real, i: nat): (k: nat)
    requires i <= |s|
    ensures i <= k <= |s|
    ensures forall m :: i <= m < k ==> s[m].timestamp < t
    ensures k < |s| ==> s[k].timestamp >= t
    decreases |s| - i
  {
    if i == |s| || s[i].timestamp >= t then i else FirstAtLeast(s, t, i + 1)
  }

  /** The first position from `i` on whose timestamp exceeds `t`. */
  function FirstAbove(s: seq<Detection>, t: real, i: nat): (k: nat)
    requires i <= |s|
    ensures i <= k <= |s|
    ensures forall m :: i <= m < k ==> s[m].timestamp <= t
    ensures k < |s| ==> s[k].timestamp > t
    decreases |s| - i
  {
    if i == |s| || s[i].timestamp > t then i else FirstAbove(s, t, i + 1)
  }

  /** In a time-sorted list the detections timestamped in `[lo, hi]` occupy
      one run of consecutive positions. */
  lemma SpanIsRun(s: seq<Detection>, lo: real, hi: real) returns (i: nat, j: nat)
    requires SortedBy(s, ByTime)
    ensures i <= j <= |s|
    ensures forall k :: 0 <= k < |s| ==> (SpanTest(lo, hi)(s[k]) <==> i <= k < j)
    ensures Filter(s, SpanTest(lo, hi)) == s[i..j]
  {
    i := FirstAtLeast(s, lo, 0);
    var j0 := FirstAbove(s, hi, 0);
    j := if j0 < i then i else j0;
    forall k | 0 <= k < |s| ensures SpanTest(lo, hi)(s[k]) <==> i <= k < j {
      if j0 < k {
        assert ByTime(s[j0], s[k]);
      }
      if i < k {
        assert ByTime(s[i], s[k]);
      }
    }
    FilterRange(s, SpanTest(lo, hi), i, j);
  }

  /** Every window of span at most `w` scores no more than the chosen one,
      when no confidence is negative. */
  lemma BestDominates(s: seq<Detection>, w: real, i: nat, j: nat)
    requires w >= 0.0 && NonNegative(s)
    requires i < j <= |s| && s[j - 1].timestamp - s[i].timestamp <= w
    ensures RangeScore(s, i, j) <= BestUpTo(s, w, |s|).score
  {
    var e := j - 1;
    BestOptimalAt(s, w, e);
    var ws := WindowStart(s, e, w);
    WindowStartLeast(s, e, w, i);
    assert WindowScore(s, e, w) == RangeScore(s, ws, j);
    RangeScoreSplit(s, ws, i, j);
    RangeScoreNonNegative(s, ws, i);
  }

  /** The detections of a time-sorted list in any `w`-second span score no
      more than the chosen window. */
  lemma SpanBound(s: seq<Detection>, w: real, lo: real)
    requires w >= 0.0 && SortedBy(s, ByTime) && NonNegative(s)
    ensures SumOf(Filter(s, SpanTest(lo, lo + w)), Confidence) <= BestUpTo(s, w, |s|).score
  {
    var i, j := SpanIsRun(s, lo, lo + w);
    RangeScoreIsSum(s, i, j);
    if i < j {
      assert SpanTest(lo, lo + w)(s[i]) && SpanTest(lo, lo + w)(s[j - 1]);
      BestDominates(s, w, i, j);
    } else {
      BestUpToValid(s, w, |s|);
    }
  }

  /** With all confidences positive some window scores above 0, so the
      chosen window is not empty. */
  lemma BestNonEmpty(s: seq<Detection>, w: real)
    requires w >= 0.0 && s != [] && Positive(s)
    ensures BestUpTo(s, w, |s|).count > 0
  {
    BestUpToValid(s, w, |s|);
    BestOptimalAt(s, w, 0);
    RangeScoreSingle(s, 0);
    assert WindowScore(s, 0, w) == s[0].confidence;
  }

  /** A detection after the chosen window lies more than `w` seconds after
      its start: otherwise the window ending there would score more. */
  lemma BestNotExtendable(s: seq<Detection>, w: real, k: nat)
    requires w >= 0.0 && Positive(s)
    requires var b := BestUpTo(s, w, |s|); b.count > 0 && b.start + b.count <= k < |s|
    ensures s[k].timestamp > s[BestUpTo(s, w, |s|).start].timestamp + w
  {
    var b := BestUpTo(s, w, |s|);
    var e := b.start + b.count - 1;
    if s[k].timestamp <= s[b.start].timestamp + w {
      var wk := WindowStart(s, k, w);
      WindowStartLeast(s, k, w, b.start);
      BestWindowFacts(s, w);
      RangeScoreSplit(s, wk, b.start, k + 1);
      RangeScoreSplit(s, b.start, e + 1, k + 1);
      RangeScoreNonNegative(s, wk, b.start);
      RangeScorePositive(s, e + 1, k + 1);
      BestOptimalAt(s, w, k);
      assert false;
    }
  }

  /** With all confidences positive the chosen window is non-empty and holds
      exactly the detections timestamped in `[s[start], s[start] + w]`. */
  lemma BestIsExactSpan(s: seq<Detection>, w: real)
    requires w >= 0.0 && s != [] && SortedBy(s, ByTime) && Positive(s)
    ensures var b := BestUpTo(s, w, |s|);
            && b.count > 0
            && b.start + b.count <= |s|
            && Filter(s, SpanTest(s[b.start].timestamp, s[b.start].timestamp + w)) == s[b.start..b.start + b.count]
  {
    var b := BestUpTo(s, w, |s|);
    BestNonEmpty(s, w);
    BestWindowFacts(s, w);
    WindowIsSpan(s, w);
    FilterRange(s, SpanTest(s[b.start].timestamp, s[b.start].timestamp + w), b.start, b.start + b.count);
  }

  /** The score of the non-empty chosen window is the `sum` of its confidences. */
  lemma BestWindowSum(s: seq<Detection>, w: real)
    requires w >= 0.0
    requires var b := BestUpTo(s, w, |s|); b.count > 0
    ensures var b := BestUpTo(s, w, |s|);
            b.start + b.count <= |s| && SumOf(s[b.start..b.start + b.count], Confidence) == b.score
  {
    var b := BestUpTo(s, w, |s|);
    BestWindowFacts(s, w);
    RangeScoreIsSum(s, b.start, b.start + b.count);
  }

  /** Position by position: a detection lies in the span of the non-empty
      chosen window exactly when it lies inside the window. */
  lemma WindowIsSpan(s: seq<Detection>, w: real)
    requires w >= 0.0 && SortedBy(s, ByTime) && Positive(s)
    requires BestUpTo(s, w, |s|).count > 0
    ensures var b := BestUpTo(s, w, |s|);
            forall k :: 0 <= k < |s| ==>
              (SpanTest(s[b.start].timestamp, s[b.start].timestamp + w)(s[k]) <==> b.start <= k < b.start + b.count)
  {
    var b := BestUpTo(s, w, |s|);
    BestWindowFacts(s, w);
    var lo, hi := s[b.start].timestamp, s[b.start].timestamp + w;
    forall k | 0 <= k < |s|
      ensures SpanTest(lo, hi)(s[k]) <==> b.start <= k < b.start + b.count
    {
      if k < b.start {
        BeforeWindow(s, w, k);
      } else if k < b.start + b.count {
        InWindow(s, w, k);
      } else {
        BestNotExtendable(s, w, k);
      }
    }
  }

  /** A detection before the chosen window lies before its first timestamp. */
  lemma BeforeWindow(s: seq<Detection>, w: real, k: nat)
    requires w >= 0.0
    requires var b := BestUpTo(s, w, |s|); b.count > 0 && k < b.start
    ensures s[k].timestamp < s[BestUpTo(s, w, |s|).start].timestamp
  {
    var b := BestUpTo(s, w, |s|);
    var e := b.start + b.count - 1;
    BestUpToValid(s, w, |s|);
    if s[e].timestamp - s[k].timestamp <= w {
      WindowStartLeast(s, e, w, k);
    }
  }

  /** A detection inside the chosen window of a sorted list lies in its span. */
  lemma InWindow(s: seq<Detection>, w: real, k: nat)
    requires w >= 0.0 && SortedBy(s, ByTime)
    requires var b := BestUpTo(s, w, |s|); b.count > 0 && b.start <= k < b.start + b.count
    ensures var b := BestUpTo(s, w, |s|);
            s[b.start].timestamp <= s[k].timestamp <= s[b.start].timestamp + w
  {
    var b := BestUpTo(s, w, |s|);
    BestWindowFacts(s, w);
    var e := b.start + b.count - 1;
    assert ByTime(s[b.start], s[k]) || k == b.start;
    assert ByTime(s[k], s[e]) || k == e;
  }

  /** `sum(confidence)` of the detections of `species` timestamped in `[lo, hi]`. */
  function SpanScore(ds: seq<Detection>, species: string, lo: real, hi: real): real {
    SumOf(Filter(ds, SpeciesSpanTest(species, lo, hi)), Confidence)
  }

  /** Number of detections of `species` timestamped in `[lo, hi]`. */
  function SpanCount(ds: seq<Detection>, species: string, lo: real, hi: real): nat {
    |Filter(ds, SpeciesSpanTest(species, lo, hi))|
  }

  /** Counting and summing over a span gives the same in any list that holds
      the species' detections. */
  lemma SpanTransfer(s: seq<Detection>, ds: seq<Detection>, species: string, lo: real, hi: real)
    requires multiset(s) == multiset(Filter(ds, SpeciesTest(species)))
    ensures SumOf(Filter(s, SpanTest(lo, hi)), Confidence) == SpanScore(ds, species, lo, hi)
    ensures |Filter(s, SpanTest(lo, hi))| == SpanCount(ds, species, lo, hi)
  {
    var a, b := Filter(s, SpanTest(lo, hi)), Filter(ds, SpeciesSpanTest(species, lo, hi));
    forall x ensures multiset(a)[x] == multiset(b)[x] {
      FilterCount(s, SpanTest(lo, hi), x);
      FilterCount(ds, SpeciesTest(species), x);
      FilterCount(ds, SpeciesSpanTest(species, lo, hi), x);
    }
    assert multiset(a) == multiset(b);
    SumPermutation(a, b, Confidence);
    assert |multiset(a)| == |multiset(b)|;
  }

  /** The clip of a time-sorted list scores at least as much as the
      detections of any `w`-second span, when no confidence is negative. */
  lemma ClipOfOptimal(s: seq<Detection>, species: string, w: real, t: real)
    requires w >= 0.0 && s != [] && SortedBy(s, ByTime) && NonNegative(s)
    ensures Round(SumOf(Filter(s, SpanTest(t, t + w)), Confidence), 3) <= ClipOf(s, species, w).value.score
  {
    SpanBound(s, w, t);
    RoundMonotone(SumOf(Filter(s, SpanTest(t, t + w)), Confidence), BestUpTo(s, w, |s|).score, 3);
  }

  /** With positive confidences the clip of a time-sorted list counts and
      scores exactly the detections timestamped in `[startS, endS]`. */
  lemma ClipOfExact(s: seq<Detection>, species: string, w: real)
    requires w >= 0.0 && s != [] && SortedBy(s, ByTime) && Positive(s)
    ensures var c := ClipOf(s, species, w).value;
            && c.detectionCount >= 1
            && c.detectionCount == |Filter(s, SpanTest(c.startS, c.endS))|
            && c.score == Round(SumOf(Filter(s, SpanTest(c.startS, c.endS)), Confidence), 3)
  {
    var b := BestUpTo(s, w, |s|);
    var lo, hi := s[b.start].timestamp, s[b.start].timestamp + w;
    assert ClipOf(s, species, w) == Some(BestClip(species, lo, hi, Round(b.score, 3), b.count));
    var span := Filter(s, SpanTest(lo, hi));
    BestIsExactSpan(s, w);
    BestWindowSum(s, w);
  }

  /** The species' detections, in any arrangement, carry the confidences
      the input gives that species. */
  lemma SpeciesConfidences(s: seq<Detection>, ds: seq<Detection>, species: string, strict: bool)
    requires multiset(s) == multiset(Filter(ds, SpeciesTest(species)))
    requires forall d :: d in ds && d.species == species ==> (if strict then d.confidence > 0.0 else d.confidence >= 0.0)
    ensures if strict then Positive(s) else NonNegative(s)
  {
    SpeciesMembers(s, ds, species);
    forall k | 0 <= k < |s|
      ensures if strict then s[k].confidence > 0.0 else s[k].confidence >= 0.0
    {
      assert s[k] in s;
    }
  }

  /** No `w`-second window scores above the best clip, when no confidence of
      the species is negative. */
  lemma FindBestClipOptimal(ds: seq<Detection>, species: string, w: real, t: real)
    requires w >= 0.0 && FindBestClip(ds, species, w).Some?
    requires forall d :: d in ds && d.species == species ==> d.confidence >= 0.0
    ensures Round(SpanScore(ds, species, t, t + w), 3) <= FindBestClip(ds, species, w).value.score
  {
    var s := SortedSpecies(ds, species);
    SortedSpeciesPermutes(ds, species);
    SpeciesConfidences(s, ds, species, false);
    SortedSpeciesSorted(ds, species);
    ClipOfOptimal(s, species, w, t);
    SpanTransfer(s, ds, species, t, t + w);
  }

  /** With positive confidences the clip's count and score are exactly those
      of the species' detections timestamped in `[startS, endS]`. */
  lemma FindBestClipExact(ds: seq<Detection>, species: string, w: real)
    requires w >= 0.0 && FindBestClip(ds, species, w).Some?
    requires forall d :: d in ds && d.species == species ==> d.confidence > 0.0
    ensures var c := FindBestClip(ds, species, w).value;
            && c.detectionCount >= 1
            && c.detectionCount == SpanCount(ds, species, c.startS, c.endS)
            && c.score == Round(SpanScore(ds, species, c.startS, c.endS), 3)
  {
    var s := SortedSpecies(ds, species);
    SortedSpeciesPermutes(ds, species);
    SpeciesConfidences(s, ds, species, true);
    SortedSpeciesSorted(ds, species);
    ClipOfExact(s, species, w);
    var c := ClipOf(s, species, w).value;
    SpanTransfer(s, ds, species, c.startS, c.endS);
  }

  /** Sorting first makes the result independent of input order, as long as
      detections of the species that share a timestamp are identical. */
  lemma FindBestClipOrderIndependent(ds1: seq<Detection>, ds2: seq<Detection>, species: string, w: real)
    requires w >= 0.0 && multiset(ds1) == multiset(ds2)
    requires forall a, b :: (a in ds1 && b in ds1 && a.species == species && b.species == species
                             && a.timestamp == b.timestamp) ==> a == b
    ensures FindBestClip(ds1, species, w) == FindBestClip(ds2, species, w)
  {
    var s1, s2 := SortedSpecies(ds1, species), SortedSpecies(ds2, species);
    SortedSpeciesPermutes(ds1, species);
    SortedSpeciesPermutes(ds2, species);
    FilterSameElements(ds1, ds2, SpeciesTest(species));
    SpeciesMembers(s1, ds1, species);
    assert TiesAreEqual(s1, ByTime) by {
      forall i, j | 0 <= i < |s1| && 0 <= j < |s1| && ByTime(s1[i], s1[j]) && ByTime(s1[j], s1[i])
        ensures s1[i] == s1[j]
      {
        assert s1[i] in s1 && s1[j] in s1;
      }
    }
    SortedSpeciesSorted(ds1, species);
    SortedSpeciesSorted(ds2, species);
    SortedUnique(s1, s2, ByTime);
  }

  /** Without that condition the order can matter: two detections at the
      same instant, one with confidence 0, are counted once or twice
      depending on which comes first. */
  lemma TiedZeroConfidenceOrderMatters()
    ensures var a, z := Detection(0.0, "wren", 0.5), Detection(0.0, "wren", 0.0);
            && multiset([a, z]) == multiset([z, a])
            && FindBestClip([a, z], "wren", 14.0).value.detectionCount == 1
            && FindBestClip([z, a], "wren", 14.0).value.detectionCount == 2
  {
    var a, z := Detection(0.0, "wren", 0.5), Detection(0.0, "wren", 0.0);
    var s1, s2 := [a, z], [z, a];
    assert Filter(s1, SpeciesTest("wren")) == s1 by {
      assert s1[1..] == [z];
      assert [z][1..] == [];
    }
    assert Filter(s2, SpeciesTest("wren")) == s2 by {
      assert s2[1..] == [a];
      assert [a][1..] == [];
    }
    assert SortBy(s1, ByTime) == s1 by {
      assert s1[1..] == [z];
      assert [z][1..] == [];
      assert SortBy([z], ByTime) == [z];
    }
    assert SortBy(s2, ByTime) == s2 by {
      assert s2[1..] == [a];
      assert [a][1..] == [];
      assert SortBy([a], ByTime) == [a];
    }
    RangeScoreSingle(s1, 0);
    RangeScoreSingle(s2, 0);
    RangeScoreSplit(s1, 0, 1, 2);
    RangeScoreSplit(s2, 0, 1, 2);
    RangeScoreSingle(s1, 1);
    RangeScoreSingle(s2, 1);
    assert WindowStart(s1, 0, 14.0) == 0 && WindowStart(s2, 0, 14.0) == 0;
    assert BestUpTo(s1, 14.0, 1) == Window(0, 1, 0.5);
    assert BestUpTo(s2, 14.0, 1) == Window(0, 0, 0.0);
    assert WindowStart(s1, 1, 14.0) == 0;
    assert WindowStart(s2, 1, 14.0) == 0;
    assert BestUpTo(s1, 14.0, 2) == Window(0, 1, 0.5);
    assert BestUpTo(s2, 14.0, 2) == Window(0, 2, 0.5);
  }

  // ---------------------------------------------------------------------
  // find_all_best_clips and save_best_clips
  // ---------------------------------------------------------------------

  /** The parts of species.json the finder reads; an absent key is `None`. */
  datatype SpeciesFile = SpeciesFile(detections: Option<seq<Detection>>, summarySpecies: Option<seq<string>>)

  datatype FileError = FileNotFound

  function HasDetections(ds: seq<Detection>): string -> bool {
    sp => exists i :: 0 <= i < |ds| && ds[i].species == sp
  }

  /** The clips of the `species_summary` keys, in key order, skipping the
      keys whose clip is None. */
  function BestClipsFor(ds: seq<Detection>, species: seq<string>, w: real): seq<(string, BestClip)>
    requires w >= 0.0
  {
    if species == [] then []
    else
      var sp := species[|species| - 1];
      var rest := BestClipsFor(ds, species[..|species| - 1], w);
      match FindBestClip(ds, sp, w)
      case None => rest
      case Some(c) => rest + [(sp, c)]
  }

  /** One entry per key that has a detection, in key order, holding that
      species' best clip. */
  lemma {:induction false} BestClipsForKeys(ds: seq<Detection>, species: seq<string>, w: real)
    requires w >= 0.0
    ensures var r := BestClipsFor(ds, species, w);
            && |r| == |Filter(species, HasDetections(ds))|
            && forall i :: 0 <= i < |r| ==>
                 && r[i].0 == Filter(species, HasDetections(ds))[i]
                 && FindBestClip(ds, r[i].0, w) == Some(r[i].1)
  {
    if species != [] {
      var sp := species[|species| - 1];
      var init := species[..|species| - 1];
      BestClipsForKeys(ds, init, w);
      FilterAppend(init, sp, HasDetections(ds));
      assert species == init + [sp];
      assert HasDetections(ds)(sp) <==> FindBestClip(ds, sp, w).Some? by {
        FindBestClipNone(ds, sp, w);
      }
    }
  }

  lemma BestClipsForStep(ds: seq<Detection>, keys: seq<string>, i: nat, w: real)
    requires w >= 0.0 && i < |keys|
    ensures var c := FindBestClip(ds, keys[i], w);
            BestClipsFor(ds, keys[..i + 1], w)
              == BestClipsFor(ds, keys[..i], w) + (if c.Some? then [(keys[i], c.value)] else [])
  {
    assert keys[..i + 1][..i] == keys[..i];
  }

  method FindAllBestClips(file: Option<SpeciesFile>, w: real) returns (r: Result<seq<(string, BestClip)>, FileError>)
    requires w >= 0.0
    ensures file.None? ==> r == Err(FileNotFound)
    ensures file.Some? ==>
              var ds := if file.value.detections.Some? then file.value.detections.value else [];
              var keys := if file.value.summarySpecies.Some? then file.value.summarySpecies.value else [];
              r == Ok(BestClipsFor(ds, keys, w))
  {
    if file.None? {
      return Err(FileNotFound);
    }
    var ds := if file.value.detections.Some? then file.value.detections.value else [];
    var keys := if file.value.summarySpecies.Some? then file.value.summarySpecies.value else [];
    var clips := [];
    for i := 0 to |keys|
      invariant clips == BestClipsFor(ds, keys[..i], w)
    {
      BestClipsForStep(ds, keys, i, w);
      var clip := FindBestClipForSpecies(ds, keys[i], w);
      if clip.Some? {
        clips := clips + [(keys[i], clip.value)];
      }
    }
    assert keys[..|keys|] == keys;
    r := Ok(clips);
  }

  /** One clip as written under `clips` in best_clips.json. */
  datatype ClipRecord = ClipRecord(startS: real, endS: real, score: real, detectionCount: nat)

  datatype BestClipsJson = BestClipsJson(windowDurationS: real, speciesCount: nat, clips: seq<(string, ClipRecord)>)

  function SaveBestClips(clips: seq<(string, BestClip)>, w: real): (j: BestClipsJson)
    ensures j.windowDurationS == w && j.speciesCount == |clips| == |j.clips|
  {
    BestClipsJson(w, |clips|, seq(|clips|, i requires 0 <= i < |clips| =>
      (clips[i].0, ClipRecord(clips[i].1.startS, clips[i].1.endS, clips[i].1.score, clips[i].1.detectionCount))))
  }

  /** Reads best_clips.json back into clips keyed by species. */
  function LoadBestClips(j: BestClipsJson): (r: seq<(string, BestClip)>)
    ensures |r| == |j.clips|
  {
    seq(|j.clips|, i requires 0 <= i < |j.clips| =>
      var rec := j.clips[i].1;
      (j.clips[i].0, BestClip(j.clips[i].0, rec.startS, rec.endS, rec.score, rec.detectionCount)))
  }

  /** The saved file records every field of every clip. */
  lemma SaveLoadRoundTrip(clips: seq<(string, BestClip)>, w: real)
    requires forall i :: 0 <= i < |clips| ==> clips[i].1.species == clips[i].0
    ensures LoadBestClips(SaveBestClips(clips, w)) == clips
  {
  }
}
