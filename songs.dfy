/** Bird-song bookkeeping around BirdNET: recovering a clip's wall-clock
    time from its `DDHHmmss00.avi` name and the `YYYYMMDD` directory,
    checking whether the camera clock can be trusted, turning BirdNET's CSV
    rows into detections, and summarising a run.  BirdNET itself, audio
    extraction and float parsing are oracles. */
module Songs {
  import opened Prelude
  import opened Seqs
  import opened Numbers
  import opened Text
  import opened Dates

  /** One song detection in one clip. */
  datatype SongDetection = SongDetection(
    filename: string, timestamp: string, startS: real, endS: real,
    commonName: string, scientificName: string, confidence: real)

  // ---------------------------------------------------------------------
  // parse_timestamp_from_filename, parse_dir_date
  // ---------------------------------------------------------------------

  /** The date-time a clip name encodes: day, hour, minute and second from
      characters 0-1, 2-3, 4-5 and 6-7, year and month from the directory.
      None unless the name ends in ".avi" and has at least ten characters,
      the four fields are integers, there is a directory date, and the
      result is a real date-time. */
  function FilenameDateTime(filename: string, dirDate: Option<Date>): Option<DateTime> {
    if !EndsWith(filename, ".avi") || |filename| < 10 then None
    else
      var day, hour, minute, second := PyInt(filename[0..2]), PyInt(filename[2..4]),
                                       PyInt(filename[4..6]), PyInt(filename[6..8]);
      if day.None? || hour.None? || minute.None? || second.None? || dirDate.None? then None
      else
        var t := DateTime(Date(dirDate.value.year, dirDate.value.month, day.value),
                          hour.value, minute.value, second.value);
        if ValidDateTime(t) then Some(t) else None
  }

  /** `parse_timestamp_from_filename`: that date-time in ISO 8601. */
  function ParseTimestampFromFilename(filename: string, dirDate: Option<Date>): Option<string> {
    match FilenameDateTime(filename, dirDate)
    case None => None
    case Some(t) => Some(IsoFormat(t))
  }

  /** The timestamp is given only for an ".avi" name of ten or more
      characters with a directory date, and it reads back as the date-time
      the name encodes, in the directory's year and month. */
  lemma TimestampFromFilename(filename: string, dirDate: Option<Date>)
    ensures var r := ParseTimestampFromFilename(filename, dirDate);
            r.Some? ==> EndsWith(filename, ".avi") && |filename| >= 10 && dirDate.Some? &&
                        ParseIsoDateTime(r.value) == FilenameDateTime(filename, dirDate) &&
                        ParseIsoDateTime(r.value).value.date.year == dirDate.value.year &&
                        ParseIsoDateTime(r.value).value.date.month == dirDate.value.month &&
                        ParseIsoDateTime(r.value).value.date.day == PyInt(filename[0..2]).value
  {
    var t := FilenameDateTime(filename, dirDate);
    if t.Some? {
      IsoRoundTrip(t.value);
    }
  }

  /** `parse_dir_date`. */
  function ParseDirDate(dirName: string): Option<Date> {
    ParseCompact(dirName)
  }

  /** The directory date is given exactly for eight-digit names of real
      dates, and it is the date the name spells. */
  lemma DirDateSpec(dirName: string, d: Date)
    ensures ParseDirDate(dirName).Some? ==>
              |dirName| == 8 && AllDigits(dirName) && ValidDate(ParseDirDate(dirName).value) &&
              FormatCompact(ParseDirDate(dirName).value) == dirName
    ensures ValidDate(d) ==> ParseDirDate(FormatCompact(d)) == Some(d)
  {
    if ParseDirDate(dirName).Some? {
      CompactCanonical(dirName);
    }
    if ValidDate(d) {
      CompactRoundTrip(d);
    }
  }

  // ---------------------------------------------------------------------
  // validate_timestamps
  // ---------------------------------------------------------------------

  /** `validate_timestamps` over the names of the directory's clips. */
  function TimestampsReliable(clipNames: seq<string>, dirDate: Option<Date>): bool {
    if dirDate.None? || clipNames == [] then false
    else
      var days := FilenameDays(clipNames);
      days != [] && DayInRange(days, dirDate.value.day)
  }

  method ValidateTimestamps(clipNames: seq<string>, dirDate: Option<Date>) returns (reliable: bool)
    ensures reliable == TimestampsReliable(clipNames, dirDate)
  {
    if dirDate.None? || |clipNames| == 0 {
      return false;
    }
    var days: seq<int> := [];
    for i := 0 to |clipNames|
      invariant days == FilenameDays(clipNames[..i])
    {
      assert clipNames[..i + 1][..i] == clipNames[..i];
      var name := clipNames[i];
      if |name| >= 10 && AllDigits(name[0..2]) {
        var day := DigitsValue(name[0..2]);
        if 1 <= day <= 31 {
          days := days + [day];
        }
      }
    }
    assert clipNames[..|clipNames|] == clipNames;
    if |days| == 0 {
      return false;
    }
    var dirDay := dirDate.value.day;
    var minDay, maxDay := MinOf(days), MaxOf(days);
    if minDay <= maxDay {
      reliable := minDay <= dirDay <= maxDay;
    } else {
      reliable := dirDay >= minDay || dirDay <= maxDay;
    }
  }

  /** `day` lies between the days of two clip names. */
  predicate DayBetweenClips(clipNames: seq<string>, day: int) {
    exists i, j :: 0 <= i < |clipNames| && 0 <= j < |clipNames| &&
      FilenameDay(clipNames[i]).Some? && FilenameDay(clipNames[j]).Some? &&
      FilenameDay(clipNames[i]).value <= day <= FilenameDay(clipNames[j]).value
  }

  /** The clock is trusted exactly when there is a directory date and its
      day lies between the days of two clip names. */
  lemma TimestampsReliableMeaning(clipNames: seq<string>, dirDate: Option<Date>)
    ensures TimestampsReliable(clipNames, dirDate) <==>
              dirDate.Some? && DayBetweenClips(clipNames, dirDate.value.day)
  {
    if TimestampsReliable(clipNames, dirDate) {
      ReliableBetweenClips(clipNames, dirDate);
    }
    if dirDate.Some? && DayBetweenClips(clipNames, dirDate.value.day) {
      BetweenClipsReliable(clipNames, dirDate);
    }
  }

  lemma ReliableBetweenClips(clipNames: seq<string>, dirDate: Option<Date>)
    requires TimestampsReliable(clipNames, dirDate)
    ensures dirDate.Some? && DayBetweenClips(clipNames, dirDate.value.day)
  {
    var days := FilenameDays(clipNames);
    var dirDay := dirDate.value.day;
    DayRangeNeverWraps(days, dirDay);
    var a, b :| 0 <= a < |days| && 0 <= b < |days| && days[a] <= dirDay <= days[b];
    FilenameDaysMembers(clipNames, days[a]);
    FilenameDaysMembers(clipNames, days[b]);
  }

  lemma BetweenClipsReliable(clipNames: seq<string>, dirDate: Option<Date>)
    requires dirDate.Some? && DayBetweenClips(clipNames, dirDate.value.day)
    ensures TimestampsReliable(clipNames, dirDate)
  {
    var days := FilenameDays(clipNames);
    var dirDay := dirDate.value.day;
    var i, j :| 0 <= i < |clipNames| && 0 <= j < |clipNames| &&
            FilenameDay(clipNames[i]).Some? && FilenameDay(clipNames[j]).Some? &&
            FilenameDay(clipNames[i]).value <= dirDay <= FilenameDay(clipNames[j]).value;
    FilenameDaysMembers(clipNames, FilenameDay(clipNames[i]).value);
    FilenameDaysMembers(clipNames, FilenameDay(clipNames[j]).value);
    var a :| 0 <= a < |days| && days[a] == FilenameDay(clipNames[i]).value;
    var b :| 0 <= b < |days| && days[b] == FilenameDay(clipNames[j]).value;
    DayRangeNeverWraps(days, dirDay);
  }

  // ---------------------------------------------------------------------
  // parse_birdnet_csv
  // ---------------------------------------------------------------------

  /** A CSV file as `csv.reader` splits it: the fields of each line, a
      blank line giving no field. */
  type CsvLines = seq<seq<string>>

  /** A row as `csv.DictReader` yields it: each header name maps to its
      field, or to None (the default `restval`) when the line is shorter
      than the header. */
  type Row = map<string, Option<string>>

  /** `csv.DictReader`'s row for one line: the header names in order, a
      repeated name keeping its last field. */
  function DictRow(header: seq<string>, fields: seq<string>): (r: Row)
    ensures forall k :: k in r <==> k in header
  {
    if header == [] then map[]
    else
      var n := |header| - 1;
      DictRow(header[..n], fields)[header[n] := if n < |fields| then Some(fields[n]) else None]
  }

  /** With distinct header names each name holds the field in its own
      position, or None past the end of the line. */
  lemma {:induction false} DictRowSpec(header: seq<string>, fields: seq<string>, i: nat)
    requires NoRepeats(header) && i < |header|
    ensures DictRow(header, fields)[header[i]] == if i < |fields| then Some(fields[i]) else None
  {
    var n := |header| - 1;
    if i < n {
      DictRowSpec(header[..n], fields, i);
      assert header[i] != header[n];
    }
  }

  /** The rows of the lines after the header, blank lines skipped. */
  function RowsOf(header: seq<string>, records: CsvLines): (r: seq<Row>)
    ensures |r| <= |records|
  {
    if records == [] then []
    else
      var n := |records| - 1;
      RowsOf(header, records[..n]) + if records[n] == [] then [] else [DictRow(header, records[n])]
  }

  /** `csv.DictReader` over a file: its first line is the header. */
  function DictRows(lines: CsvLines): seq<Row> {
    if lines == [] then [] else RowsOf(lines[0], lines[1..])
  }

  /** The header BirdNET writes. */
  const BirdnetHeader := ["Start (s)", "End (s)", "Scientific name", "Common name", "Confidence", "File"]

  /** A header laid out as BirdNET writes it: its first five names are the
      start, end, scientific name, common name and confidence columns, in
      that order, and no name repeats. */
  predicate BirdnetLayout(header: seq<string>) {
    && |header| >= 5 && NoRepeats(header)
    && header[0] == "Start (s)" && header[1] == "End (s)" && header[2] == "Scientific name"
    && header[3] == "Common name" && header[4] == "Confidence"
  }

  lemma BirdnetHeaderLayout()
    ensures BirdnetLayout(BirdnetHeader)
  {
    forall i, j | 0 <= i < j < |BirdnetHeader| ensures BirdnetHeader[i] != BirdnetHeader[j] {
      assert BirdnetHeader[i][..2] != BirdnetHeader[j][..2] || |BirdnetHeader[i]| != |BirdnetHeader[j]|;
    }
  }

  /** The field in position `i` of a line, None past its end. */
  function FieldAt(fields: seq<string>, i: nat): Option<string> {
    if i < |fields| then Some(fields[i]) else None
  }

  /** Under BirdNET's layout each of the five columns holds the field in
      its position, so a line long enough to reach the confidence also
      holds both names. */
  lemma BirdnetRow(header: seq<string>, fields: seq<string>)
    requires BirdnetLayout(header)
    ensures var row := DictRow(header, fields);
            && row["Start (s)"] == FieldAt(fields, 0)
            && row["End (s)"] == FieldAt(fields, 1)
            && row["Scientific name"] == FieldAt(fields, 2)
            && row["Common name"] == FieldAt(fields, 3)
            && row["Confidence"] == FieldAt(fields, 4)
  {
    DictRowSpec(header, fields, 0);
    DictRowSpec(header, fields, 1);
    DictRowSpec(header, fields, 2);
    DictRowSpec(header, fields, 3);
    DictRowSpec(header, fields, 4);
  }

  /** Python's `float()` on a CSV field; None for a ValueError. */
  type FloatParser = string -> Option<real>

  /** The timestamp of a detection starting `startS` seconds into the clip:
      with a trusted clock, the clip's own time with `int(start_s)` added to
      its seconds field ("" when the name gives no time; None, dropping the
      row, when the seconds leave 0..59); otherwise the directory date, or
      "" without one. */
  function RowTimestamp(sourceFilename: string, dirDate: Option<Date>, reliable: bool, startS: real): Option<string> {
    if reliable then
      match ParseTimestampFromFilename(sourceFilename, dirDate)
      case None => Some("")
      case Some(base) => ShiftSeconds(base, startS)
    else if dirDate.Some? then Some(FormatDate(dirDate.value))
    else Some("")
  }

  /** `fromisoformat(base).replace(second=second + int(start_s)).isoformat()`,
      None where `replace` raises. */
  function ShiftSeconds(base: string, startS: real): Option<string> {
    match ParseIsoDateTime(base)
    case None => None
    case Some(t) =>
      var second := t.second + Trunc(startS);
      if 0 <= second <= 59 then Some(IsoFormat(t.(second := second))) else None
  }

  /** What looking up one column gives: its value, a skip (`KeyError` for
      a missing column or `ValueError` from `float`), or a field the line
      was too short to have. */
  datatype Field<T> = Present(value: T) | Skip | Short

  /** `float(row[column])`. */
  function NumberField(row: Row, column: string, parseFloat: FloatParser): Field<real> {
    if column !in row then Skip
    else if row[column].None? then Short
    else match parseFloat(row[column].value)
      case None => Skip
      case Some(x) => Present(x)
  }

  /** `row[column]`. */
  function NameField(row: Row, column: string): Field<string> {
    if column !in row then Skip
    else if row[column].None? then Short
    else Present(row[column].value)
  }

  /** `float(None)` raises a `TypeError`, which the row loop does not
      catch. */
  datatype RowError = ShortRow(column: string)

  /** How a row stops at a column that is not present. */
  function Stop<T>(f: Field<T>, column: string): Result<Option<SongDetection>, RowError> {
    if f.Short? then Err(ShortRow(column)) else Ok(None)
  }

  /** One row, its columns read in the order the loop reads them: Ok(None)
      when a column is missing, a number does not parse, or the shifted
      seconds are out of range; an error at the first column the line is
      too short to have. */
  function ParseRow(row: Row, sourceFilename: string, dirDate: Option<Date>, reliable: bool,
                    parseFloat: FloatParser): Result<Option<SongDetection>, RowError>
  {
    var startS := NumberField(row, "Start (s)", parseFloat);
    var endS := NumberField(row, "End (s)", parseFloat);
    var confidence := NumberField(row, "Confidence", parseFloat);
    var scientific := NameField(row, "Scientific name");
    var common := NameField(row, "Common name");
    if !startS.Present? then Stop(startS, "Start (s)")
    else if !endS.Present? then Stop(endS, "End (s)")
    else if !confidence.Present? then Stop(confidence, "Confidence")
    else if !scientific.Present? then Stop(scientific, "Scientific name")
    else if !common.Present? then Stop(common, "Common name")
    else Ok(Detect(sourceFilename, dirDate, reliable, startS.value, endS.value, common.value, scientific.value, confidence.value))
  }

  /** The detection a row with every column present makes, unless its
      timestamp raises. */
  function Detect(sourceFilename: string, dirDate: Option<Date>, reliable: bool, startS: real, endS: real,
                  commonName: string, scientificName: string, confidence: real): Option<SongDetection>
  {
    match RowTimestamp(sourceFilename, dirDate, reliable, startS)
    case None => None
    case Some(timestamp) =>
      Some(SongDetection(sourceFilename, timestamp, startS, endS, commonName, scientificName, confidence))
  }

  /** The detections of the rows that parse, in row order, or the error of
      the first row that raises. */
  function ParseRows(rows: seq<Row>, sourceFilename: string, dirDate: Option<Date>, reliable: bool,
                     parseFloat: FloatParser): Result<seq<SongDetection>, RowError>
  {
    if rows == [] then Ok([])
    else
      match ParseRows(rows[..|rows| - 1], sourceFilename, dirDate, reliable, parseFloat)
      case Err(e) => Err(e)
      case Ok(init) =>
        match ParseRow(rows[|rows| - 1], sourceFilename, dirDate, reliable, parseFloat)
        case Err(e) => Err(e)
        case Ok(None) => Ok(init)
        case Ok(Some(d)) => Ok(init + [d])
  }

  /** `parse_birdnet_csv`: nothing when BirdNET wrote no CSV. */
  method ParseBirdnetCsv(csvExists: bool, lines: CsvLines, sourceFilename: string, dirDate: Option<Date>,
                         reliable: bool, parseFloat: FloatParser) returns (r: Result<seq<SongDetection>, RowError>)
    ensures r == if csvExists then ParseRows(DictRows(lines), sourceFilename, dirDate, reliable, parseFloat) else Ok([])
  {
    var detections := [];
    if !csvExists {
      return Ok(detections);
    }
    var rows := DictRows(lines);
    for i := 0 to |rows|
      invariant ParseRows(rows[..i], sourceFilename, dirDate, reliable, parseFloat) == Ok(detections)
    {
      ParseRowsStep(rows, i, sourceFilename, dirDate, reliable, parseFloat);
      var parsed := ParseRow(rows[i], sourceFilename, dirDate, reliable, parseFloat);
      if parsed.Err? {
        RaisedStays(rows, i + 1, sourceFilename, dirDate, reliable, parseFloat);
        return Err(parsed.error);
      }
      if parsed.value.Some? {
        detections := detections + [parsed.value.value];
      }
    }
    assert rows[..|rows|] == rows;
    return Ok(detections);
  }

  /** One more row either raises or adds its detection, if any. */
  lemma ParseRowsStep(rows: seq<Row>, i: nat, sourceFilename: string, dirDate: Option<Date>,
                      reliable: bool, parseFloat: FloatParser)
    requires i < |rows| && ParseRows(rows[..i], sourceFilename, dirDate, reliable, parseFloat).Ok?
    ensures var init := ParseRows(rows[..i], sourceFilename, dirDate, reliable, parseFloat).value;
            var row := ParseRow(rows[i], sourceFilename, dirDate, reliable, parseFloat);
            ParseRows(rows[..i + 1], sourceFilename, dirDate, reliable, parseFloat) ==
              if row.Err? then Err(row.error)
              else if row.value.None? then Ok(init)
              else Ok(init + [row.value.value])
  {
    assert rows[..i + 1][..i] == rows[..i];
  }

  /** Once a prefix of the rows raises, the whole file raises the same. */
  lemma {:induction false} RaisedStays(rows: seq<Row>, k: nat, sourceFilename: string, dirDate: Option<Date>,
                                       reliable: bool, parseFloat: FloatParser)
    requires k <= |rows| && ParseRows(rows[..k], sourceFilename, dirDate, reliable, parseFloat).Err?
    ensures ParseRows(rows, sourceFilename, dirDate, reliable, parseFloat) ==
              ParseRows(rows[..k], sourceFilename, dirDate, reliable, parseFloat)
    decreases |rows|
  {
    if k < |rows| {
      var n := |rows| - 1;
      assert rows[..n][..k] == rows[..k];
      RaisedStays(rows[..n], k, sourceFilename, dirDate, reliable, parseFloat);
    } else {
      assert rows[..k] == rows;
    }
  }

  /** What a detection parsed from `sourceFilename` carries: the clip's
      name, and as timestamp either the directory date (or "") when the
      clock is not trusted, the clip's own time shifted by whole seconds
      within the same minute when it is, or "" when the name gives no time. */
  predicate StampedFromClip(d: SongDetection, sourceFilename: string, dirDate: Option<Date>, reliable: bool) {
    d.filename == sourceFilename && StampFor(d.timestamp, d.startS, FilenameDateTime(sourceFilename, dirDate), dirDate, reliable)
  }

  /** The timestamp rule, given the clip time `clipTime` its name encodes. */
  predicate StampFor(timestamp: string, startS: real, clipTime: Option<DateTime>, dirDate: Option<Date>, reliable: bool) {
    if !reliable then timestamp == (if dirDate.Some? then FormatDate(dirDate.value) else "")
    else
      match clipTime
      case None => timestamp == ""
      case Some(base) =>
        var t := base.(second := base.second + Trunc(startS));
        ValidDateTime(t) && timestamp == IsoFormat(t)
  }

  /** The timestamp a detection gets, as `StampFor` describes it. */
  lemma RowTimestampSpec(sourceFilename: string, dirDate: Option<Date>, reliable: bool, startS: real)
    ensures var r := RowTimestamp(sourceFilename, dirDate, reliable, startS);
            r.Some? ==> StampFor(r.value, startS, FilenameDateTime(sourceFilename, dirDate), dirDate, reliable)
  {
    var base := FilenameDateTime(sourceFilename, dirDate);
    if !reliable {
      DateOnlyStamp(sourceFilename, dirDate, startS);
    } else if base.None? {
      EmptyStamp(sourceFilename, dirDate, startS);
    } else {
      ClipTimeStamp(sourceFilename, dirDate, base.value, startS);
    }
  }

  lemma ClipTimeStamp(sourceFilename: string, dirDate: Option<Date>, base: DateTime, startS: real)
    requires FilenameDateTime(sourceFilename, dirDate) == Some(base)
    ensures var r := RowTimestamp(sourceFilename, dirDate, true, startS);
            r.Some? ==> StampFor(r.value, startS, Some(base), dirDate, true)
  {
    ShiftedStamp(sourceFilename, dirDate, base, startS);
    ShiftedStampFor(base, dirDate, startS, RowTimestamp(sourceFilename, dirDate, true, startS));
  }

  lemma ShiftedStampFor(base: DateTime, dirDate: Option<Date>, startS: real, r: Option<string>)
    requires var t := base.(second := base.second + Trunc(startS));
             r == if ValidDateTime(t) then Some(IsoFormat(t)) else None
    ensures r.Some? ==> StampFor(r.value, startS, Some(base), dirDate, true)
  {
  }

  /** Without a trusted clock, only the directory date is kept. */
  lemma DateOnlyStamp(sourceFilename: string, dirDate: Option<Date>, startS: real)
    ensures RowTimestamp(sourceFilename, dirDate, false, startS) ==
              Some(if dirDate.Some? then FormatDate(dirDate.value) else "")
  {
  }

  /** With a trusted clock but no clip time, the timestamp is empty. */
  lemma EmptyStamp(sourceFilename: string, dirDate: Option<Date>, startS: real)
    requires FilenameDateTime(sourceFilename, dirDate).None?
    ensures RowTimestamp(sourceFilename, dirDate, true, startS) == Some("")
  {
  }

  /** With a trusted clock and a clip time, the timestamp is that time
      shifted by the whole seconds of the start offset. */
  lemma ShiftedStamp(sourceFilename: string, dirDate: Option<Date>, base: DateTime, startS: real)
    requires FilenameDateTime(sourceFilename, dirDate) == Some(base)
    ensures var t := base.(second := base.second + Trunc(startS));
            RowTimestamp(sourceFilename, dirDate, true, startS) ==
              if ValidDateTime(t) then Some(IsoFormat(t)) else None
  {
    assert ParseTimestampFromFilename(sourceFilename, dirDate) == Some(IsoFormat(base));
    IsoRoundTrip(base);
    ShiftSecondsSpec(IsoFormat(base), base, startS);
  }

  lemma ShiftSecondsSpec(iso: string, b: DateTime, startS: real)
    requires ParseIsoDateTime(iso) == Some(b)
    ensures var t := b.(second := b.second + Trunc(startS));
            ShiftSeconds(iso, startS) == if ValidDateTime(t) then Some(IsoFormat(t)) else None
  {
  }

  /** A row that parses yields a detection stamped from its clip, with the
      row's own names and numbers. */
  lemma ParsedRow(row: Row, sourceFilename: string, dirDate: Option<Date>, reliable: bool,
                  parseFloat: FloatParser)
    ensures var r := ParseRow(row, sourceFilename, dirDate, reliable, parseFloat);
            r.Ok? && r.value.Some? ==>
              var d := r.value.value;
              && StampedFromClip(d, sourceFilename, dirDate, reliable)
              && "Common name" in row && row["Common name"] == Some(d.commonName)
              && "Scientific name" in row && row["Scientific name"] == Some(d.scientificName)
              && "Confidence" in row && row["Confidence"].Some? && parseFloat(row["Confidence"].value) == Some(d.confidence)
              && "Start (s)" in row && row["Start (s)"].Some? && parseFloat(row["Start (s)"].value) == Some(d.startS)
              && "End (s)" in row && row["End (s)"].Some? && parseFloat(row["End (s)"].value) == Some(d.endS)
  {
    var startS := NumberField(row, "Start (s)", parseFloat);
    var endS := NumberField(row, "End (s)", parseFloat);
    var confidence := NumberField(row, "Confidence", parseFloat);
    var scientific := NameField(row, "Scientific name");
    var common := NameField(row, "Common name");
    if startS.Present? && endS.Present? && confidence.Present? && scientific.Present? && common.Present? {
      DetectSpec(sourceFilename, dirDate, reliable, startS.value, endS.value, common.value, scientific.value, confidence.value);
    }
  }

  lemma DetectSpec(sourceFilename: string, dirDate: Option<Date>, reliable: bool, startS: real, endS: real,
                   commonName: string, scientificName: string, confidence: real)
    ensures var r := Detect(sourceFilename, dirDate, reliable, startS, endS, commonName, scientificName, confidence);
            r.Some? ==> r.value == SongDetection(sourceFilename, r.value.timestamp, startS, endS, commonName, scientificName, confidence) &&
                        StampedFromClip(r.value, sourceFilename, dirDate, reliable)
  {
    RowTimestampSpec(sourceFilename, dirDate, reliable, startS);
  }

  /** A file parses without raising exactly when none of its rows raises;
      otherwise it raises the error of its first row that does. */
  lemma {:induction false} ParsedRowsRaise(rows: seq<Row>, sourceFilename: string, dirDate: Option<Date>, reliable: bool,
                                           parseFloat: FloatParser)
    ensures var r := ParseRows(rows, sourceFilename, dirDate, reliable, parseFloat);
            && (r.Ok? <==> forall i :: 0 <= i < |rows| ==> ParseRow(rows[i], sourceFilename, dirDate, reliable, parseFloat).Ok?)
            && (r.Err? ==> exists i :: 0 <= i < |rows| &&
                             ParseRow(rows[i], sourceFilename, dirDate, reliable, parseFloat) == Err(r.error) &&
                             forall j :: 0 <= j < i ==> ParseRow(rows[j], sourceFilename, dirDate, reliable, parseFloat).Ok?)
  {
    if rows != [] {
      var n := |rows| - 1;
      var init := rows[..n];
      ParsedRowsRaise(init, sourceFilename, dirDate, reliable, parseFloat);
      assert forall i :: 0 <= i < n ==> init[i] == rows[i];
      var front := ParseRows(init, sourceFilename, dirDate, reliable, parseFloat);
      if front.Err? {
        var i :| 0 <= i < |init| &&
                 ParseRow(init[i], sourceFilename, dirDate, reliable, parseFloat) == Err(front.error) &&
                 forall j :: 0 <= j < i ==> ParseRow(init[j], sourceFilename, dirDate, reliable, parseFloat).Ok?;
        assert ParseRow(rows[i], sourceFilename, dirDate, reliable, parseFloat) == Err(front.error);
      }
    }
  }

  /** Every parsed detection is stamped from the source clip, and there
      are no more detections than rows. */
  lemma {:induction false} ParsedRows(rows: seq<Row>, sourceFilename: string, dirDate: Option<Date>, reliable: bool,
                                      parseFloat: FloatParser)
    ensures var r := ParseRows(rows, sourceFilename, dirDate, reliable, parseFloat);
            r.Ok? ==> |r.value| <= |rows| &&
                      forall k :: 0 <= k < |r.value| ==> StampedFromClip(r.value[k], sourceFilename, dirDate, reliable)
  {
    if rows != [] {
      var n := |rows| - 1;
      ParsedRows(rows[..n], sourceFilename, dirDate, reliable, parseFloat);
      ParsedRow(rows[n], sourceFilename, dirDate, reliable, parseFloat);
    }
  }

  /** A row raises only at one of the five columns, one the line was too
      short to fill, and at a name column only once the three numbers
      have parsed. */
  lemma RowRaises(row: Row, sourceFilename: string, dirDate: Option<Date>, reliable: bool, parseFloat: FloatParser)
    ensures var r := ParseRow(row, sourceFilename, dirDate, reliable, parseFloat);
            && (r.Err? ==> r.error.column in ["Start (s)", "End (s)", "Confidence", "Scientific name", "Common name"] &&
                           r.error.column in row && row[r.error.column].None?)
            && (r.Err? && r.error.column in ["Scientific name", "Common name"] ==>
                  NumberField(row, "Confidence", parseFloat).Present?)
  {
  }

  /** A row that the line was long enough to fill never raises. */
  lemma FullRowNeverRaises(row: Row, sourceFilename: string, dirDate: Option<Date>, reliable: bool,
                           parseFloat: FloatParser)
    requires forall k :: k in row ==> row[k].Some?
    ensures ParseRow(row, sourceFilename, dirDate, reliable, parseFloat).Ok?
  {
    RowRaises(row, sourceFilename, dirDate, reliable, parseFloat);
  }

  /** A full row missing a column is skipped whatever else it holds. */
  lemma MissingColumnSkipped(row: Row, sourceFilename: string, dirDate: Option<Date>, reliable: bool,
                             parseFloat: FloatParser, column: string)
    requires forall k :: k in row ==> row[k].Some?
    requires column in ["Start (s)", "End (s)", "Confidence", "Scientific name", "Common name"]
    requires column !in row
    ensures ParseRow(row, sourceFilename, dirDate, reliable, parseFloat) == Ok(None)
  {
    FullRowNeverRaises(row, sourceFilename, dirDate, reliable, parseFloat);
  }

  /** Under BirdNET's layout a name column is never the one that raises:
      a line reaching the confidence reaches both names. */
  lemma BirdnetNamesNeverRaise(header: seq<string>, fields: seq<string>, sourceFilename: string,
                               dirDate: Option<Date>, reliable: bool, parseFloat: FloatParser)
    requires BirdnetLayout(header)
    ensures var r := ParseRow(DictRow(header, fields), sourceFilename, dirDate, reliable, parseFloat);
            r.Err? ==> r.error.column in ["Start (s)", "End (s)", "Confidence"]
  {
    BirdnetRow(header, fields);
    RowRaises(DictRow(header, fields), sourceFilename, dirDate, reliable, parseFloat);
  }

  /** Under BirdNET's layout a line too short to reach the confidence
      raises, unless a number before its end fails to parse. */
  lemma ShortBirdnetLine(header: seq<string>, fields: seq<string>, sourceFilename: string,
                         dirDate: Option<Date>, reliable: bool, parseFloat: FloatParser)
    requires BirdnetLayout(header)
    requires |fields| < 5
    requires forall i :: 0 <= i < |fields| && i != 2 && i != 3 ==> parseFloat(fields[i]).Some?
    ensures ParseRow(DictRow(header, fields), sourceFilename, dirDate, reliable, parseFloat).Err?
  {
    BirdnetRow(header, fields);
    if |fields| > 0 {
      assert parseFloat(fields[0]).Some?;
    }
    if |fields| > 1 {
      assert parseFloat(fields[1]).Some?;
    }
  }

  // ---------------------------------------------------------------------
  // to_dict and the summary of analyze_songs
  // ---------------------------------------------------------------------

  /** The JSON record `to_dict` produces. */
  datatype SongRecord = SongRecord(
    filename: string, timestamp: string, startS: real, endS: real,
    commonName: string, scientificName: string, confidence: real)

  function ToDict(d: SongDetection): SongRecord {
    SongRecord(d.filename, d.timestamp, d.startS, d.endS, d.commonName, d.scientificName,
               Round(d.confidence, 4))
  }

  /** Every field is copied and the confidence is within half a unit of the
      fourth decimal place. */
  lemma ToDictSpec(d: SongDetection)
    ensures var r := ToDict(d);
            r.filename == d.filename && r.timestamp == d.timestamp && r.startS == d.startS &&
            r.endS == d.endS && r.commonName == d.commonName && r.scientificName == d.scientificName &&
            d.confidence - 0.00005 < r.confidence <= d.confidence + 0.00005
  {
    RoundClose(d.confidence, 4);
    assert Pow10(4) == 10000;
  }

  /** Highest confidence first; `sort(reverse=True)` is stable, so equal
      confidences keep their order. */
  function ByConfidenceDescending(): (SongDetection, SongDetection) -> bool {
    (a: SongDetection, b: SongDetection) => a.confidence >= b.confidence
  }

  function ScientificNames(ds: seq<SongDetection>): (r: seq<string>)
    ensures |r| == |ds| && forall i :: 0 <= i < |ds| ==> r[i] == ds[i].scientificName
  {
    if ds == [] then [] else [ds[0].scientificName] + ScientificNames(ds[1..])
  }

  function Filenames(ds: seq<SongDetection>): (r: seq<string>)
    ensures |r| == |ds| && forall i :: 0 <= i < |ds| ==> r[i] == ds[i].filename
  {
    if ds == [] then [] else [ds[0].filename] + Filenames(ds[1..])
  }

  datatype SongSummary = SongSummary(
    detections: seq<SongRecord>, totalDetections: nat, uniqueSpecies: nat,
    speciesList: seq<string>, filesProcessed: nat, filesWithDetections: nat)

  function Records(ds: seq<SongDetection>): (r: seq<SongRecord>)
    ensures |r| == |ds| && forall i :: 0 <= i < |ds| ==> r[i] == ToDict(ds[i])
  {
    if ds == [] then [] else [ToDict(ds[0])] + Records(ds[1..])
  }

  /** The result of `analyze_songs` once every clip's detections are
      collected: sorted by confidence, counted, and the distinct species
      and files tallied. */
  function Summarize(all: seq<SongDetection>, filesProcessed: nat): SongSummary {
    var sorted := SortBy(all, ByConfidenceDescending());
    var species := Distinct(ScientificNames(all));
    SongSummary(Records(sorted), |all|, |species|, SortStrings(species), filesProcessed,
                |Distinct(Filenames(all))|)
  }

  /** The detections come out as a permutation, by descending confidence,
      with equal confidences in collection order. */
  lemma ConfidenceOrder(all: seq<SongDetection>)
    ensures var sorted := SortBy(all, ByConfidenceDescending());
            && multiset(sorted) == multiset(all)
            && (forall i, j :: 0 <= i < j < |sorted| ==> sorted[i].confidence >= sorted[j].confidence)
            && (forall x :: TiedWith(sorted, ByConfidenceDescending(), x) == TiedWith(all, ByConfidenceDescending(), x))
  {
    var le := ByConfidenceDescending();
    assert TotalPreorder(le);
    SortPermutes(all, le);
    SortSorted(all, le);
    forall x ensures TiedWith(SortBy(all, le), le, x) == TiedWith(all, le, x) {
      SortStable(all, le, x);
    }
  }

  /** Sorting a list without repeats keeps it without repeats. */
  lemma SortKeepsNoRepeats(species: seq<string>)
    requires NoRepeats(species)
    ensures NoRepeats(SortStrings(species))
  {
    SortStringsSpec(species);
    var list := SortStrings(species);
    forall i, j | 0 <= i < j < |list| ensures list[i] != list[j] {
      if list[i] == list[j] {
        assert multiset(list)[list[i]] >= 2 by {
          assert list == list[..j] + [list[j]] + list[j + 1..];
          assert list[i] in list[..j];
        }
        DistinctOnce(species, list[i]);
      }
    }
  }

  /** The species list is sorted, has no repeats, and names exactly the
      species detected. */
  lemma SpeciesList(all: seq<SongDetection>)
    ensures var list := SortStrings(Distinct(ScientificNames(all)));
            && |list| == |Distinct(ScientificNames(all))|
            && NoRepeats(list)
            && (forall i, j :: 0 <= i < j < |list| ==> StrLe(list[i], list[j]))
            && (forall x :: x in list <==> exists i :: 0 <= i < |all| && all[i].scientificName == x)
  {
    var names := ScientificNames(all);
    var species := Distinct(names);
    DistinctSpec(names);
    SortStringsSpec(species);
    SortKeepsNoRepeats(species);
    var list := SortStrings(species);
    forall x ensures x in list <==> exists i :: 0 <= i < |all| && all[i].scientificName == x {
      assert x in list <==> x in multiset(species);
      if x in names {
        var i :| 0 <= i < |names| && names[i] == x;
        assert all[i].scientificName == x;
      }
    }
  }

  /** The summary lists every detection once, by descending confidence with
      ties in collection order; its species list is sorted, has no repeats,
      and names exactly the species detected, and the counts agree. */
  lemma SummarySpec(all: seq<SongDetection>, filesProcessed: nat)
    ensures var s := Summarize(all, filesProcessed);
            var sorted := SortBy(all, ByConfidenceDescending());
            && s.totalDetections == |s.detections| == |all|
            && (forall i :: 0 <= i < |all| ==> s.detections[i] == ToDict(sorted[i]))
            && s.uniqueSpecies == |s.speciesList|
            && NoRepeats(s.speciesList)
            && (forall i, j :: 0 <= i < j < |s.speciesList| ==> StrLe(s.speciesList[i], s.speciesList[j]))
            && (forall x :: x in s.speciesList <==> exists i :: 0 <= i < |all| && all[i].scientificName == x)
            && s.filesWithDetections <= |all|
            && s.filesProcessed == filesProcessed
  {
    SpeciesList(all);
    DistinctFilenames(all);
  }

  lemma DistinctFilenames(all: seq<SongDetection>)
    ensures |Distinct(Filenames(all))| <= |all|
  {
    DistinctShorter(Filenames(all));
  }

  // ---------------------------------------------------------------------
  // analyze_songs
  // ---------------------------------------------------------------------

  /** Why `analyze_songs` raises: no clip, no audio, or a CSV line too
      short for a number column (the `TypeError` `parse_birdnet_csv`
      passes on). */
  datatype SongsError = NoAviFiles | NoAudioExtracted | RowTooShort(clip: string, column: string)

  /** The returned dictionary, without the configuration echo. */
  datatype SongAnalysis = SongAnalysis(timestampsReliable: bool, date: Option<string>, summary: SongSummary)

  /** The world `analyze_songs` runs in: the directory's name and listing,
      whether audio extraction succeeds for a clip, and the lines of the
      CSV BirdNET writes for it (None when it writes no file). */
  datatype SongsRun = SongsRun(
    dirName: string, listing: seq<string>, limit: Option<int>,
    extracts: string -> bool, birdnet: string -> Option<CsvLines>, parseFloat: FloatParser)

  /** The clips processed: the `.avi` names in order, cut to the limit. */
  function AviFiles(run: SongsRun): seq<string> {
    ClipNames(run.listing, run.limit)
  }

  /** The detections of one clip's CSV, or the error it raises. */
  function ClipDetections(name: string, dirDate: Option<Date>, reliable: bool,
                          birdnet: string -> Option<CsvLines>, parseFloat: FloatParser): Result<seq<SongDetection>, RowError>
  {
    var lines := birdnet(name);
    if lines.Some? then ParseRows(DictRows(lines.value), name, dirDate, reliable, parseFloat) else Ok([])
  }

  /** The detections of the clips, in clip order, or the error of the
      first clip whose CSV raises. */
  function CollectDetections(clips: seq<string>, dirDate: Option<Date>, reliable: bool,
                             birdnet: string -> Option<CsvLines>, parseFloat: FloatParser): Result<seq<SongDetection>, SongsError>
  {
    if clips == [] then Ok([])
    else
      var name := clips[|clips| - 1];
      match CollectDetections(clips[..|clips| - 1], dirDate, reliable, birdnet, parseFloat)
      case Err(e) => Err(e)
      case Ok(init) =>
        match ClipDetections(name, dirDate, reliable, birdnet, parseFloat)
        case Err(e) => Err(RowTooShort(name, e.column))
        case Ok(ds) => Ok(init + ds)
  }

  /** `analyze_songs` as a function of its inputs. */
  function SongsReport(run: SongsRun): Result<SongAnalysis, SongsError> {
    var aviFiles := AviFiles(run);
    if aviFiles == [] then Err(NoAviFiles)
    else
      var dirDate := ParseDirDate(run.dirName);
      var reliable := TimestampsReliable(Filter(run.listing, IsAvi), dirDate);
      var extracted := Filter(aviFiles, run.extracts);
      if extracted == [] then Err(NoAudioExtracted)
      else
        match CollectDetections(extracted, dirDate, reliable, run.birdnet, run.parseFloat)
        case Err(e) => Err(e)
        case Ok(all) =>
          Ok(SongAnalysis(reliable, if dirDate.Some? then Some(FormatDate(dirDate.value)) else None,
                          Summarize(all, |aviFiles|)))
  }

  /** `analyze_songs`: extract audio clip by clip, then run BirdNET and
      parse its CSV clip by clip. */
  method AnalyzeSongs(run: SongsRun) returns (r: Result<SongAnalysis, SongsError>)
    ensures r == SongsReport(run)
  {
    var aviFiles := AviFiles(run);
    if |aviFiles| == 0 {
      return Err(NoAviFiles);
    }
    var dirDate := ParseDirDate(run.dirName);
    var reliable := ValidateTimestamps(Filter(run.listing, IsAvi), dirDate);
    var extracted := ExtractAudio(aviFiles, run.extracts);
    if |extracted| == 0 {
      return Err(NoAudioExtracted);
    }
    var all := AnalyzeClips(extracted, dirDate, reliable, run.birdnet, run.parseFloat);
    if all.Err? {
      return Err(all.error);
    }
    var date := if dirDate.Some? then Some(FormatDate(dirDate.value)) else None;
    r := Ok(SongAnalysis(reliable, date, Summarize(all.value, |aviFiles|)));
  }

  /** The clips whose audio could be extracted, in order. */
  method ExtractAudio(aviFiles: seq<string>, extracts: string -> bool) returns (extracted: seq<string>)
    ensures extracted == Filter(aviFiles, extracts)
  {
    extracted := [];
    for i := 0 to |aviFiles|
      invariant extracted == Filter(aviFiles[..i], extracts)
    {
      FilterAppend(aviFiles[..i], aviFiles[i], extracts);
      assert aviFiles[..i + 1] == aviFiles[..i] + [aviFiles[i]];
      if extracts(aviFiles[i]) {
        extracted := extracted + [aviFiles[i]];
      }
    }
    assert aviFiles[..|aviFiles|] == aviFiles;
  }

  /** Once a prefix of the clips raises, the whole run raises the same. */
  lemma {:induction false} ClipRaisedStays(clips: seq<string>, k: nat, dirDate: Option<Date>, reliable: bool,
                                           birdnet: string -> Option<CsvLines>, parseFloat: FloatParser)
    requires k <= |clips| && CollectDetections(clips[..k], dirDate, reliable, birdnet, parseFloat).Err?
    ensures CollectDetections(clips, dirDate, reliable, birdnet, parseFloat) ==
              CollectDetections(clips[..k], dirDate, reliable, birdnet, parseFloat)
    decreases |clips|
  {
    if k < |clips| {
      var n := |clips| - 1;
      assert clips[..n][..k] == clips[..k];
      ClipRaisedStays(clips[..n], k, dirDate, reliable, birdnet, parseFloat);
    } else {
      assert clips[..k] == clips;
    }
  }

  /** BirdNET over each extracted clip, collecting the parsed detections. */
  method AnalyzeClips(extracted: seq<string>, dirDate: Option<Date>, reliable: bool,
                      birdnet: string -> Option<CsvLines>, parseFloat: FloatParser)
    returns (r: Result<seq<SongDetection>, SongsError>)
    ensures r == CollectDetections(extracted, dirDate, reliable, birdnet, parseFloat)
  {
    var all := [];
    for i := 0 to |extracted|
      invariant CollectDetections(extracted[..i], dirDate, reliable, birdnet, parseFloat) == Ok(all)
    {
      assert extracted[..i + 1][..i] == extracted[..i];
      var lines := birdnet(extracted[i]);
      var detections := ParseBirdnetCsv(lines.Some?, if lines.Some? then lines.value else [], extracted[i],
                                        dirDate, reliable, parseFloat);
      if detections.Err? {
        ClipRaisedStays(extracted, i + 1, dirDate, reliable, birdnet, parseFloat);
        return Err(RowTooShort(extracted[i], detections.error.column));
      }
      all := all + detections.value;
    }
    assert extracted[..|extracted|] == extracted;
    return Ok(all);
  }

  /** The clips run without raising exactly when no clip's CSV raises;
      otherwise the error names the first clip that does, with the
      column its CSV raised at. */
  lemma {:induction false} CollectRaises(clips: seq<string>, dirDate: Option<Date>, reliable: bool,
                                         birdnet: string -> Option<CsvLines>, parseFloat: FloatParser)
    ensures var r := CollectDetections(clips, dirDate, reliable, birdnet, parseFloat);
            && (r.Ok? <==> forall i :: 0 <= i < |clips| ==> ClipDetections(clips[i], dirDate, reliable, birdnet, parseFloat).Ok?)
            && (r.Err? ==> r.error.RowTooShort? &&
                           exists i :: 0 <= i < |clips| && clips[i] == r.error.clip &&
                             ClipDetections(clips[i], dirDate, reliable, birdnet, parseFloat) == Err(ShortRow(r.error.column)) &&
                             forall j :: 0 <= j < i ==> ClipDetections(clips[j], dirDate, reliable, birdnet, parseFloat).Ok?)
  {
    if clips != [] {
      var n := |clips| - 1;
      var init := clips[..n];
      CollectRaises(init, dirDate, reliable, birdnet, parseFloat);
      assert forall i :: 0 <= i < n ==> init[i] == clips[i];
      var r := CollectDetections(clips, dirDate, reliable, birdnet, parseFloat);
      var front := CollectDetections(init, dirDate, reliable, birdnet, parseFloat);
      if front.Err? {
        var i :| 0 <= i < |init| && init[i] == front.error.clip &&
                 ClipDetections(init[i], dirDate, reliable, birdnet, parseFloat) == Err(ShortRow(front.error.column)) &&
                 forall j :: 0 <= j < i ==> ClipDetections(init[j], dirDate, reliable, birdnet, parseFloat).Ok?;
        assert clips[i] == r.error.clip;
      } else if ClipDetections(clips[n], dirDate, reliable, birdnet, parseFloat).Err? {
        assert ClipDetections(clips[n], dirDate, reliable, birdnet, parseFloat) == Err(ShortRow(r.error.column));
      }
    }
  }

  /** Every collected detection comes from one of the clips. */
  lemma {:induction false} CollectedFromClips(clips: seq<string>, dirDate: Option<Date>, reliable: bool,
                                              birdnet: string -> Option<CsvLines>, parseFloat: FloatParser)
    ensures var r := CollectDetections(clips, dirDate, reliable, birdnet, parseFloat);
            r.Ok? ==> forall d :: d in r.value ==> d.filename in clips
  {
    if clips != [] {
      var n := |clips| - 1;
      var init := clips[..n];
      var name := clips[n];
      CollectedFromClips(init, dirDate, reliable, birdnet, parseFloat);
      var r := CollectDetections(clips, dirDate, reliable, birdnet, parseFloat);
      var front := CollectDetections(init, dirDate, reliable, birdnet, parseFloat);
      var last := ClipDetections(name, dirDate, reliable, birdnet, parseFloat);
      if r.Ok? {
        if birdnet(name).Some? {
          ParsedRows(DictRows(birdnet(name).value), name, dirDate, reliable, parseFloat);
        }
        forall d: SongDetection | d in front.value + last.value ensures d.filename in clips {
          if d in front.value {
            assert d.filename in init;
          } else {
            var k :| 0 <= k < |last.value| && last.value[k] == d;
          }
        }
      }
    }
  }

  /** Every detection of a successful run names an `.avi` clip of the
      listing that was processed and whose audio was extracted. */
  lemma ReportedClips(run: SongsRun, all: seq<SongDetection>)
    requires forall d :: d in all ==> d.filename in Filter(AviFiles(run), run.extracts)
    ensures forall d :: d in all ==> d.filename in AviFiles(run) && IsAvi(d.filename) && run.extracts(d.filename)
  {
    var aviFiles := AviFiles(run);
    ClipNamesSpec(run.listing, run.limit);
    forall d | d in all
      ensures d.filename in aviFiles && IsAvi(d.filename) && run.extracts(d.filename)
    {
      FilterMembers(aviFiles, run.extracts, d.filename);
    }
  }

  /** A run that raises on a CSV names a processed clip whose audio was
      extracted and for which BirdNET wrote a file. */
  lemma ReportedRaise(run: SongsRun)
    ensures var r := SongsReport(run);
            r.Err? && r.error.RowTooShort? ==>
              var name := r.error.clip;
              name in AviFiles(run) && IsAvi(name) && run.extracts(name) && run.birdnet(name).Some?
  {
    var aviFiles := AviFiles(run);
    var r := SongsReport(run);
    if aviFiles != [] && r.Err? && r.error.RowTooShort? {
      var dirDate := ParseDirDate(run.dirName);
      var reliable := TimestampsReliable(Filter(run.listing, IsAvi), dirDate);
      var extracted := Filter(aviFiles, run.extracts);
      CollectRaises(extracted, dirDate, reliable, run.birdnet, run.parseFloat);
      var name := r.error.clip;
      var i :| 0 <= i < |extracted| && extracted[i] == name &&
               ClipDetections(extracted[i], dirDate, reliable, run.birdnet, run.parseFloat) == Err(ShortRow(r.error.column));
      ReportedClips(run, [SongDetection(name, "", 0.0, 0.0, "", "", 0.0)]);
    }
  }

  /** A run fails with no clip to process or no clip's audio extracted,
      exactly then; otherwise it fails only for a processed clip whose
      audio was extracted and whose CSV raises.  A successful run reports
      the clips processed and the clock check, and every detection it
      reports comes from a processed clip whose audio was extracted. */
  lemma SongsReportSpec(run: SongsRun)
    ensures var r := SongsReport(run);
            && (r == Err(NoAviFiles) <==> AviFiles(run) == [])
            && (r == Err(NoAudioExtracted) <==> AviFiles(run) != [] && Filter(AviFiles(run), run.extracts) == [])
            && (r.Err? && r.error.RowTooShort? ==>
                  var name := r.error.clip;
                  name in AviFiles(run) && IsAvi(name) && run.extracts(name) && run.birdnet(name).Some?)
            && (r.Ok? ==>
                  && r.value.summary.filesProcessed == |AviFiles(run)|
                  && r.value.timestampsReliable == TimestampsReliable(Filter(run.listing, IsAvi), ParseDirDate(run.dirName))
                  && forall k :: 0 <= k < |r.value.summary.detections| ==>
                       var name := r.value.summary.detections[k].filename;
                       name in AviFiles(run) && IsAvi(name) && run.extracts(name))
  {
    ReportedRaise(run);
    var aviFiles := AviFiles(run);
    var r := SongsReport(run);
    if aviFiles != [] {
      var dirDate := ParseDirDate(run.dirName);
      var reliable := TimestampsReliable(Filter(run.listing, IsAvi), dirDate);
      CollectRaises(Filter(aviFiles, run.extracts), dirDate, reliable, run.birdnet, run.parseFloat);
    }
    if r.Ok? {
      var dirDate := ParseDirDate(run.dirName);
      var reliable := TimestampsReliable(Filter(run.listing, IsAvi), dirDate);
      var extracted := Filter(aviFiles, run.extracts);
      var all := CollectDetections(extracted, dirDate, reliable, run.birdnet, run.parseFloat).value;
      CollectedFromClips(extracted, dirDate, reliable, run.birdnet, run.parseFloat);
      ReportedClips(run, all);
      var sorted := SortBy(all, ByConfidenceDescending());
      SortPermutes(all, ByConfidenceDescending());
      var records := r.value.summary.detections;
      assert records == Records(sorted);
      forall k | 0 <= k < |records|
        ensures records[k].filename in aviFiles && IsAvi(records[k].filename) && run.extracts(records[k].filename)
      {
        assert records[k].filename == sorted[k].filename;
        assert sorted[k] in multiset(all);
      }
    }
  }
}
