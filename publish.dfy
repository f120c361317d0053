/** Publishing batches to object storage: naming a batch after the date of
    its footage, reading the batch list back from the bucket's folder
    prefixes, keeping `latest.json` in step, pruning old batches, deciding
    whether a file needs uploading, and the date range a batch spans.  The
    storage client, the clock, MD5 hashing and the user's answer to the
    clean-up prompt are inputs. */
module Publish {
  import opened Prelude
  import opened Seqs
  import opened Text
  import opened Dates
  import Songs

  // ---------------------------------------------------------------------
  // extract_original_date
  // ---------------------------------------------------------------------

  /** `extract_original_date`: an eight-digit directory name that is a real
      date becomes `YYYY-MM-DD`; anything else is "unknown". */
  function ExtractOriginalDate(dirName: string): string {
    if |dirName| == 8 && AllDigits(dirName) then
      var text := dirName[0..4] + "-" + dirName[4..6] + "-" + dirName[6..8];
      if ParseIsoDate(text).Some? then text else "unknown"
    else "unknown"
  }

  /** The original date is the directory date written as `YYYY-MM-DD`, or
      "unknown" exactly when the directory name is not a date. */
  lemma OriginalDateSpec(dirName: string)
    ensures ExtractOriginalDate(dirName) ==
              match ParseCompact(dirName)
              case None => "unknown"
              case Some(d) => FormatDate(d)
  {
    if |dirName| == 8 && AllDigits(dirName) {
      var text := dirName[0..4] + "-" + dirName[4..6] + "-" + dirName[6..8];
      assert text[0..4] == dirName[0..4] && text[5..7] == dirName[4..6] && text[8..10] == dirName[6..8];
      assert ParseIsoDate(text) == ParseCompact(dirName);
      if ParseIsoDate(text).Some? {
        ParseIsoDateCanonical(text);
      }
    }
  }

  // ---------------------------------------------------------------------
  // list_batches
  // ---------------------------------------------------------------------

  /** The batch id in a common prefix `batches/<id>/`: the prefix with its
      trailing slashes removed must split into exactly two parts on '/'. */
  function BatchIdOf(prefix: string): Option<string> {
    var parts := Split(RStripChar(prefix, '/'), '/');
    if |parts| == 2 then Some(parts[1]) else None
  }

  /** The ids of the prefixes that name a batch, in listing order. */
  function BatchIds(prefixes: seq<string>): (r: seq<string>)
    ensures |r| <= |prefixes|
  {
    if prefixes == [] then []
    else
      var init := BatchIds(prefixes[..|prefixes| - 1]);
      match BatchIdOf(prefixes[|prefixes| - 1])
      case None => init
      case Some(id) => init + [id]
  }

  /** `list_batches` over the listing's common prefixes (none when the
      listing has no `CommonPrefixes`): the batch ids, newest first. */
  method ListBatches(prefixes: seq<string>) returns (batchIds: seq<string>)
    ensures batchIds == SortStringsDescending(BatchIds(prefixes))
  {
    var ids: seq<string> := [];
    for i := 0 to |prefixes|
      invariant ids == BatchIds(prefixes[..i])
    {
      assert prefixes[..i + 1][..i] == prefixes[..i];
      var parts := Split(RStripChar(prefixes[i], '/'), '/');
      if |parts| == 2 {
        ids := ids + [parts[1]];
      }
    }
    assert prefixes[..|prefixes|] == prefixes;
    batchIds := SortStringsDescending(ids);
  }

  /** A folder prefix `a/b/` with slash-free parts and a non-empty `b`
      names batch `b`, and every id read back is slash-free. */
  lemma BatchIdRoundTrip(a: string, b: string, prefix: string)
    requires '/' !in a && '/' !in b && b != []
    ensures BatchIdOf(a + "/" + b + "/") == Some(b)
    ensures BatchIdOf(prefix).Some? ==> '/' !in BatchIdOf(prefix).value
  {
    var p := a + "/" + b + "/";
    assert RStripChar(p, '/') == a + "/" + b by {
      assert p[..|p| - 1] == a + "/" + b;
      assert b[|b| - 1] in b;
      assert (a + "/" + b)[|a + "/" + b| - 1] == b[|b| - 1];
    }
    assert a + "/" + b == a + ['/'] + b;
    SplitLine(a, b, '/');
    SplitNone(b, '/');
    SplitJoin(RStripChar(prefix, '/'), '/');
  }

  /** The batch list holds the named batches, each once per prefix naming
      it, newest (greatest) first. */
  lemma ListBatchesSpec(prefixes: seq<string>)
    ensures var r := SortStringsDescending(BatchIds(prefixes));
            && multiset(r) == multiset(BatchIds(prefixes))
            && (forall i, j :: 0 <= i < j < |r| ==> StrLe(r[j], r[i]))
            && (forall id :: id in r <==> exists k :: 0 <= k < |prefixes| && BatchIdOf(prefixes[k]) == Some(id))
  {
    SortStringsDescendingSpec(BatchIds(prefixes));
    forall id ensures id in SortStringsDescending(BatchIds(prefixes)) <==>
                      exists k :: 0 <= k < |prefixes| && BatchIdOf(prefixes[k]) == Some(id) {
      assert id in SortStringsDescending(BatchIds(prefixes)) <==> id in multiset(BatchIds(prefixes));
      BatchIdsMembers(prefixes, id);
    }
  }

  lemma {:induction false} BatchIdsMembers(prefixes: seq<string>, id: string)
    ensures id in BatchIds(prefixes) <==> exists k :: 0 <= k < |prefixes| && BatchIdOf(prefixes[k]) == Some(id)
  {
    if prefixes != [] {
      var init := prefixes[..|prefixes| - 1];
      BatchIdsMembers(init, id);
      assert forall k :: 0 <= k < |init| ==> init[k] == prefixes[k];
      if exists k :: 0 <= k < |prefixes| && BatchIdOf(prefixes[k]) == Some(id) {
        var k :| 0 <= k < |prefixes| && BatchIdOf(prefixes[k]) == Some(id);
        if k < |init| {
          assert BatchIdOf(init[k]) == Some(id);
        }
      }
    }
  }

  // ---------------------------------------------------------------------
  // generate_batch_id
  // ---------------------------------------------------------------------

  /** The `YYYYMMDD` prefix: today's date when the original date is
      "unknown", otherwise the original date with its '-' removed. */
  function DatePrefix(originalDate: string, today: Date): string {
    if originalDate == "unknown" then FormatCompact(today) else RemoveChar(originalDate, '-')
  }

  /** `int(batch_id.split('_')[1])`, None where Python raises. */
  function SequenceOf(batchId: string): Option<int> {
    var parts := Split(batchId, '_');
    if |parts| < 2 then None else PyInt(parts[1])
  }

  /** The largest sequence number that parses, or 0. */
  function MaxSequence(ids: seq<string>): (r: int)
    ensures r >= 0
  {
    if ids == [] then 0
    else
      var m := MaxSequence(ids[..|ids| - 1]);
      match SequenceOf(ids[|ids| - 1])
      case None => m
      case Some(v) => if v > m then v else m
  }

  /** The sequence loop of `generate_batch_id`. */
  method MaxSequenceOf(ids: seq<string>) returns (maxSeq: int)
    ensures maxSeq == MaxSequence(ids)
  {
    maxSeq := 0;
    for i := 0 to |ids|
      invariant maxSeq == MaxSequence(ids[..i])
    {
      assert ids[..i + 1][..i] == ids[..i];
      var parts := Split(ids[i], '_');
      if |parts| >= 2 {
        var v := PyInt(parts[1]);
        if v.Some? && v.value > maxSeq {
          maxSeq := v.value;
        }
      }
    }
    assert ids[..|ids|] == ids;
  }

  /** The maximum bounds every sequence number that parses. */
  lemma {:induction false} MaxSequenceBound(ids: seq<string>)
    ensures forall i :: 0 <= i < |ids| && SequenceOf(ids[i]).Some? ==> SequenceOf(ids[i]).value <= MaxSequence(ids)
  {
    if ids != [] {
      var init := ids[..|ids| - 1];
      MaxSequenceBound(init);
      forall i | 0 <= i < |ids| && SequenceOf(ids[i]).Some? ensures SequenceOf(ids[i]).value <= MaxSequence(ids) {
        if i < |init| {
          assert init[i] == ids[i];
        }
      }
    }
  }

  /** The maximum is one of the sequence numbers unless it is 0. */
  lemma {:induction false} MaxSequenceAttained(ids: seq<string>) returns (i: nat)
    requires MaxSequence(ids) != 0
    ensures i < |ids| && SequenceOf(ids[i]) == Some(MaxSequence(ids))
  {
    var init := ids[..|ids| - 1];
    if MaxSequence(ids) == MaxSequence(init) {
      i := MaxSequenceAttained(init);
      assert init[i] == ids[i];
    } else {
      i := |ids| - 1;
    }
  }

  function BatchId(prefix: string, n: nat): string {
    prefix + "_" + ZeroPad(n, 2)
  }

  /** The listed batches whose id starts with the date prefix. */
  function SameDate(batches: seq<string>, prefix: string): seq<string> {
    Filter(batches, (b: string) => StartsWith(b, prefix))
  }

  /** `generate_batch_id` as a function of the batch list and the date
      prefix: the id and whether it already exists. */
  function ChooseBatchId(batches: seq<string>, prefix: string, createNew: bool): (string, bool) {
    var sameDate := SameDate(batches, prefix);
    if sameDate == [] then (BatchId(prefix, 1), false)
    else
      var maxSeq := MaxSequence(sameDate);
      if createNew then (BatchId(prefix, maxSeq + 1), false)
      else (BatchId(prefix, maxSeq), true)
  }

  /** `generate_batch_id`, with the clock reading passed in. */
  method GenerateBatchId(batches: seq<string>, originalDate: string, createNew: bool, today: Date)
    returns (batchId: string, exists_: bool)
    ensures (batchId, exists_) == ChooseBatchId(batches, DatePrefix(originalDate, today), createNew)
  {
    var prefix := DatePrefix(originalDate, today);
    var sameDate := SameDate(batches, prefix);
    if |sameDate| == 0 {
      return BatchId(prefix, 1), false;
    }
    var maxSeq := MaxSequenceOf(sameDate);
    if createNew {
      batchId, exists_ := BatchId(prefix, maxSeq + 1), false;
    } else {
      batchId, exists_ := BatchId(prefix, maxSeq), true;
    }
  }

  /** The sequence number of an id built from an underscore-free prefix is
      the number it was built with, and the id starts with the prefix. */
  lemma BatchIdSequence(prefix: string, n: nat)
    requires '_' !in prefix
    ensures SequenceOf(BatchId(prefix, n)) == Some(n)
    ensures StartsWith(BatchId(prefix, n), prefix)
  {
    var digits := ZeroPad(n, 2);
    BatchIdSplit(prefix, n);
    ZeroPadRoundTrip(n, 2);
    DigitsStripped(digits);
    ParseIntRoundTrip(n, 2);
    assert BatchId(prefix, n)[..|prefix|] == prefix;
  }

  /** A batch id splits at '_' into its date prefix and its sequence. */
  lemma BatchIdSplit(prefix: string, n: nat)
    requires '_' !in prefix
    ensures Split(BatchId(prefix, n), '_') == [prefix, ZeroPad(n, 2)]
  {
    var digits := ZeroPad(n, 2);
    ZeroPadRoundTrip(n, 2);
    assert '_' !in digits by {
      forall k | 0 <= k < |digits| ensures digits[k] != '_' {
        assert IsDigit(digits[k]);
      }
    }
    assert BatchId(prefix, n) == prefix + ['_'] + digits;
    SplitLine(prefix, digits, '_');
    SplitNone(digits, '_');
  }

  /** Digits carry no surrounding whitespace. */
  lemma DigitsStripped(digits: string)
    requires digits != [] && AllDigits(digits)
    ensures Strip(digits) == digits
  {
    var first, last := digits[0], digits[|digits| - 1];
    assert IsDigit(first) && IsDigit(last);
    assert !IsSpace(first) && !IsSpace(last);
    assert StripLeft(digits) == digits;
    assert StripRight(digits) == digits;
  }

  /** One past the largest sequence of a date names no listed batch. */
  lemma NextBatchIdFresh(batches: seq<string>, prefix: string)
    requires '_' !in prefix
    ensures BatchId(prefix, MaxSequence(SameDate(batches, prefix)) + 1) !in batches
  {
    var sameDate := SameDate(batches, prefix);
    var id := BatchId(prefix, MaxSequence(sameDate) + 1);
    BatchIdSequence(prefix, MaxSequence(sameDate) + 1);
    if id in batches {
      FilterMembers(batches, (b: string) => StartsWith(b, prefix), id);
      var i :| 0 <= i < |sameDate| && sameDate[i] == id;
      MaxSequenceBound(sameDate);
    }
  }

  /** A date-named batch: with no batch of that date the id is sequence 1
      and new; a new id for an existing date is one past the largest
      sequence and collides with no listed batch; otherwise the id reuses
      the largest sequence and is reported as existing. */
  lemma BatchIdSpec(batches: seq<string>, prefix: string, createNew: bool)
    requires '_' !in prefix
    ensures var (id, existing) := ChooseBatchId(batches, prefix, createNew);
            var sameDate := SameDate(batches, prefix);
            && StartsWith(id, prefix)
            && (sameDate == [] ==> SequenceOf(id) == Some(1) && !existing)
            && (sameDate != [] && createNew ==>
                  SequenceOf(id) == Some(MaxSequence(sameDate) + 1) && !existing && id !in batches)
            && (sameDate != [] && !createNew ==> SequenceOf(id) == Some(MaxSequence(sameDate)) && existing)
  {
    var sameDate := SameDate(batches, prefix);
    if sameDate == [] {
      BatchIdSequence(prefix, 1);
    } else if createNew {
      BatchIdSequence(prefix, MaxSequence(sameDate) + 1);
      NextBatchIdFresh(batches, prefix);
    } else {
      BatchIdSequence(prefix, MaxSequence(sameDate));
    }
  }

  /** For a known date the prefix is the compact form of that date, which
      holds no underscore. */
  lemma DatePrefixOfDate(d: Date, today: Date)
    requires ValidDate(d)
    ensures DatePrefix(FormatDate(d), today) == FormatCompact(d)
    ensures '_' !in FormatCompact(d)
  {
    FormatDateFields(d);
    PadFits(d.year, 4);
    PadFits(d.month, 2);
    PadFits(d.day, 2);
    assert FormatDate(d) != "unknown" by {
      assert |"unknown"| != 10;
    }
    RemoveDashes(Pad(d.year, 4), Pad(d.month, 2), Pad(d.day, 2));
  }

  /** Removing the dashes from `Y-M-D` leaves `YMD`, which, being digits,
      holds no underscore. */
  lemma RemoveDashes(y: string, m: string, dd: string)
    requires AllDigits(y) && AllDigits(m) && AllDigits(dd)
    ensures RemoveChar(y + "-" + m + "-" + dd, '-') == y + m + dd
    ensures '_' !in y + m + dd
  {
    RemoveDigits(y);
    RemoveDigits(m);
    RemoveDigits(dd);
    RemoveDash(y, m);
    assert y + "-" + m + "-" + dd == (y + "-" + m) + "-" + dd;
    RemoveDash(y + "-" + m, dd);
    var all := y + m + dd;
    assert AllDigits(all);
    forall k | 0 <= k < |all| ensures all[k] != '_' {
      assert IsDigit(all[k]);
    }
  }

  lemma RemoveDash(a: string, b: string)
    ensures RemoveChar(a + "-" + b, '-') == RemoveChar(a, '-') + RemoveChar(b, '-')
  {
    var keep := (x: char) => x != '-';
    assert Filter("-", keep) == [];
    FilterConcat(a + "-", b, keep);
    FilterConcat(a, "-", keep);
  }

  lemma RemoveDigits(s: string)
    requires AllDigits(s)
    ensures RemoveChar(s, '-') == s
  {
    var keep := (x: char) => x != '-';
    FilterRange(s, keep, 0, |s|);
  }

  // ---------------------------------------------------------------------
  // latest.json
  // ---------------------------------------------------------------------

  /** One entry of `latest.json`. */
  datatype BatchSummary = BatchSummary(
    id: string, uploaded: string, originalDate: string, clipCount: int, highlightsDuration: real)

  datatype LatestJson = LatestJson(latest: string, batches: seq<BatchSummary>)

  function WithoutId(entries: seq<BatchSummary>, id: string): seq<BatchSummary> {
    Filter(entries, (b: BatchSummary) => b.id != id)
  }

  /** `update_latest_json`: the stored entries (None when there is no
      `latest.json` yet) lose every entry of the batch, and the new summary
      goes first. */
  function UpdateLatestJson(stored: Option<seq<BatchSummary>>, summary: BatchSummary): LatestJson {
    var entries := if stored.Some? then stored.value else [];
    LatestJson(summary.id, [summary] + WithoutId(entries, summary.id))
  }

  /** The new batch is the latest, listed first and only once; every other
      entry stays, in its order. */
  lemma UpdateLatestSpec(stored: Option<seq<BatchSummary>>, summary: BatchSummary)
    ensures var r := UpdateLatestJson(stored, summary);
            var entries := if stored.Some? then stored.value else [];
            && r.latest == summary.id
            && r.batches[0] == summary
            && (forall i :: 1 <= i < |r.batches| ==> r.batches[i].id != summary.id)
            && r.batches[1..] == WithoutId(entries, summary.id)
            && (forall b :: b in entries && b.id != summary.id ==> b in r.batches)
            && |r.batches| <= |entries| + 1
  {
    var entries := if stored.Some? then stored.value else [];
    var keep := (b: BatchSummary) => b.id != summary.id;
    var rest := WithoutId(entries, summary.id);
    var r := UpdateLatestJson(stored, summary);
    assert r.batches[1..] == rest;
    forall i | 1 <= i < |r.batches| ensures r.batches[i].id != summary.id {
      assert r.batches[i] == rest[i - 1];
      FilterMembers(entries, keep, rest[i - 1]);
    }
    forall b | b in entries && b.id != summary.id ensures b in r.batches {
      FilterMembers(entries, keep, b);
    }
  }

  // ---------------------------------------------------------------------
  // cleanup_old_batches
  // ---------------------------------------------------------------------

  /** The entries of `latest.json` after deleting `deleted`, and its
      `latest` moved to the first remaining entry if it was deleted and
      any remain. */
  function PruneLatest(json: LatestJson, deleted: seq<string>): LatestJson {
    var kept := Filter(json.batches, (b: BatchSummary) => b.id !in deleted);
    LatestJson(if json.latest in deleted && kept != [] then kept[0].id else json.latest, kept)
  }

  datatype Cleanup = Cleanup(deleted: seq<string>, latestJson: Option<LatestJson>)

  /** `cleanup_old_batches` over the batch list (newest first), the user's
      answer and the stored `latest.json` (None when absent).  The
      deletion of each batch's stored objects is not modelled, so each
      iteration of the loop only records its batch as deleted. */
  method CleanupOldBatches(batches: seq<string>, keepLatest: int, confirm: bool, stored: Option<LatestJson>)
    returns (r: Cleanup)
    ensures |batches| <= keepLatest || !confirm ==> r == Cleanup([], stored)
    ensures |batches| > keepLatest && confirm ==>
              r.deleted == PySuffix(batches, keepLatest) &&
              r.latestJson == if stored.Some? then Some(PruneLatest(stored.value, r.deleted)) else None
  {
    if |batches| <= keepLatest || !confirm {
      return Cleanup([], stored);
    }
    var toDelete := PySuffix(batches, keepLatest);
    var deleted: seq<string> := [];
    for i := 0 to |toDelete|
      invariant deleted == toDelete[..i]
    {
      deleted := deleted + [toDelete[i]];
    }
    assert toDelete[..|toDelete|] == toDelete;
    var json := if stored.Some? then Some(PruneLatest(stored.value, deleted)) else None;
    r := Cleanup(deleted, json);
  }

  /** With a non-negative `keep_latest`, the batches past the first
      `keep_latest` are deleted and the first `keep_latest` kept. */
  lemma CleanupSplit(batches: seq<string>, keepLatest: nat)
    requires |batches| > keepLatest
    ensures batches[..keepLatest] + PySuffix(batches, keepLatest) == batches
    ensures |PySuffix(batches, keepLatest)| == |batches| - keepLatest
  {
    PySliceSplit(batches, keepLatest);
  }

  /** Pruning removes exactly the deleted batches' entries, keeps the rest
      in order, and leaves `latest` pointing at a deleted batch only when
      nothing remains. */
  lemma PruneLatestSpec(json: LatestJson, deleted: seq<string>)
    ensures var r := PruneLatest(json, deleted);
            && (forall b :: b in r.batches <==> b in json.batches && b.id !in deleted)
            && |r.batches| <= |json.batches|
            && (json.latest !in deleted ==> r.latest == json.latest)
            && (json.latest in deleted && r.batches != [] ==> r.latest == r.batches[0].id && r.latest !in deleted)
            && (r.latest in deleted ==> r.batches == [])
  {
    var keep := (b: BatchSummary) => b.id !in deleted;
    var kept := Filter(json.batches, keep);
    forall b ensures b in kept <==> b in json.batches && b.id !in deleted {
      FilterMembers(json.batches, keep, b);
    }
    if kept != [] {
      assert kept[0] in kept;
    }
  }

  // ---------------------------------------------------------------------
  // should_upload_file
  // ---------------------------------------------------------------------

  /** What `head_object` reports: the object's ETag and size, a 404, or
      any other client error. */
  datatype Head = Found(etag: string, contentLength: int) | NotFound | HeadFailed

  /** `should_upload_file`: None where the client error is re-raised. */
  function ShouldUpload(head: Head, localSize: int, localMd5: string): Option<bool> {
    match head
    case NotFound => Some(true)
    case HeadFailed => None
    case Found(etag, size) =>
      var remote := StripChar(etag, '"');
      if '-' in remote then Some(localSize != size) else Some(localMd5 != remote)
  }

  /** A missing object is uploaded; a single-part object, whose quoted ETag
      is its MD5, is uploaded exactly when the local MD5 differs; a
      multipart object is uploaded exactly when the sizes differ. */
  lemma ShouldUploadSpec(md5: string, parts: string, size: int, localSize: int, localMd5: string)
    requires '"' !in md5 && '-' !in md5
    requires '"' !in parts && '-' in parts
    ensures ShouldUpload(NotFound, localSize, localMd5) == Some(true)
    ensures ShouldUpload(Found("\"" + md5 + "\"", size), localSize, localMd5) == Some(localMd5 != md5)
    ensures ShouldUpload(Found("\"" + parts + "\"", size), localSize, localMd5) == Some(localSize != size)
  {
    StripCharWrapped(md5, '"');
    StripCharWrapped(parts, '"');
    assert "\"" + md5 + "\"" == ['"'] + md5 + ['"'];
    assert "\"" + parts + "\"" == ['"'] + parts + ['"'];
  }

  // ---------------------------------------------------------------------
  // extract_date_range
  // ---------------------------------------------------------------------

  /** The previous month, as `extract_date_range` computes it. */
  function PreviousMonth(year: int, month: int): (int, int) {
    if month == 1 then (year - 1, 12) else (year, month - 1)
  }

  /** Both ends of a range written as `YYYY-MM-DD`, or the fallback when
      either end is not a real date. */
  function FormatRange(start: Option<Date>, end: Option<Date>, fallback: (string, string)): (string, string) {
    if start.Some? && end.Some? then (FormatDate(start.value), FormatDate(end.value)) else fallback
  }

  /** `extract_date_range` over the names of the parent directory's `.avi`
      files: the first and last clip day in the directory's month when the
      directory day lies between them, otherwise the original date twice. */
  function DateRange(originalDate: string, clipNames: seq<string>): (string, string) {
    var fallback := (originalDate, originalDate);
    if originalDate == "unknown" then fallback
    else
      match ParseIsoDate(originalDate)
      case None => fallback
      case Some(dir) =>
        if clipNames == [] then fallback
        else
          var days := FilenameDays(clipNames);
          if days == [] then fallback
          else
            var minDay, maxDay := MinOf(days), MaxOf(days);
            if !DayInRange(days, dir.day) then fallback
            else if minDay > maxDay then
              var (prevYear, prevMonth) := PreviousMonth(dir.year, dir.month);
              FormatRange(MakeDate(prevYear, prevMonth, minDay), MakeDate(dir.year, dir.month, maxDay), fallback)
            else
              FormatRange(MakeDate(dir.year, dir.month, minDay), MakeDate(dir.year, dir.month, maxDay), fallback)
  }

  /** `extract_date_range`: collect the clip days, then check and build
      the range. */
  method ExtractDateRange(originalDate: string, clipNames: seq<string>) returns (range: (string, string))
    ensures range == DateRange(originalDate, clipNames)
  {
    range := (originalDate, originalDate);
    if originalDate == "unknown" {
      return;
    }
    var dir := ParseIsoDate(originalDate);
    if dir.None? || |clipNames| == 0 {
      return;
    }
    var days: seq<int> := [];
    for i := 0 to |clipNames|
      invariant days == FilenameDays(clipNames[..i])
    {
      assert clipNames[..i + 1][..i] == clipNames[..i];
      var name := clipNames[i];
      if |name| >= 10 && AllDigits(name[0..2]) {
        var day := DigitsValue(name[0..2]);
        if 1 <= day <= 31 {
          days := days + [day];
        }
      }
    }
    assert clipNames[..|clipNames|] == clipNames;
    if |days| == 0 {
      return;
    }
    var d := dir.value;
    var minDay, maxDay := MinOf(days), MaxOf(days);
    var valid: bool;
    if minDay <= maxDay {
      valid := minDay <= d.day <= maxDay;
    } else {
      valid := d.day >= minDay || d.day <= maxDay;
    }
    if !valid {
      return;
    }
    var start, end: Option<Date>;
    if minDay > maxDay {
      var (prevYear, prevMonth) := PreviousMonth(d.year, d.month);
      start, end := MakeDate(prevYear, prevMonth, minDay), MakeDate(d.year, d.month, maxDay);
    } else {
      start, end := MakeDate(d.year, d.month, minDay), MakeDate(d.year, d.month, maxDay);
    }
    if start.Some? && end.Some? {
      range := (FormatDate(start.value), FormatDate(end.value));
    }
  }

  /** The range is built exactly when the directory date parses, the clip
      clock passes the check of `validate_timestamps`, and the latest clip
      day exists in the directory's month; it then runs from the earliest
      to the latest clip day of that month.  Otherwise it is the original
      date twice. */
  lemma DateRangeSpec(originalDate: string, clipNames: seq<string>)
    ensures DateRange(originalDate, clipNames) ==
              match ParseIsoDate(originalDate)
              case None => (originalDate, originalDate)
              case Some(dir) =>
                if Songs.TimestampsReliable(clipNames, Some(dir))
                   && ValidDate(Date(dir.year, dir.month, MaxOf(FilenameDays(clipNames))))
                then (FormatDate(Date(dir.year, dir.month, MinOf(FilenameDays(clipNames)))),
                      FormatDate(Date(dir.year, dir.month, MaxOf(FilenameDays(clipNames)))))
                else (originalDate, originalDate)
  {
    if ParseIsoDate(originalDate).Some? {
      assert originalDate != "unknown" by {
        assert |"unknown"| != 10;
      }
      var dir := ParseIsoDate(originalDate).value;
      if clipNames != [] && FilenameDays(clipNames) != [] {
        DayRangeNeverWraps(FilenameDays(clipNames), dir.day);
      }
    }
  }

  /** Each end of a built range reads back as a date in the directory's
      month, the directory's day lying between them. */
  lemma DateRangeEnds(dir: Date, days: seq<int>)
    requires days != [] && 1 <= MinOf(days) <= dir.day <= MaxOf(days)
    requires ValidDate(dir) && ValidDate(Date(dir.year, dir.month, MaxOf(days)))
    ensures ParseIsoDate(FormatDate(Date(dir.year, dir.month, MinOf(days)))) == Some(Date(dir.year, dir.month, MinOf(days)))
    ensures ParseIsoDate(FormatDate(Date(dir.year, dir.month, MaxOf(days)))) == Some(Date(dir.year, dir.month, MaxOf(days)))
  {
    FormatDateRoundTrip(Date(dir.year, dir.month, MinOf(days)));
    FormatDateRoundTrip(Date(dir.year, dir.month, MaxOf(days)));
  }
}
