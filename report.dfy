/**
 * The report: every row of the Calls sheet becomes at most one fixed-width line, the
 * lines are concatenated in row order, and the file name carries the Eastern call date
 * of the last row that had a start time.
 */
module Report {
  import opened Wrappers
  import opened ResponseCode
  import opened LineFormat

  /** A naive wall-clock timestamp as the sheet holds it; it is read in the Pacific zone. */
  datatype DateTime = DateTime(year: int, month: int, day: int, hour: int, minute: int, second: int)

  /** The call date (`YYYYMMDD`) and time (`HHMM`) after conversion to the Eastern zone. */
  datatype EasternStamp = EasternStamp(date: DateField, time: TimeField)

  /**
   * The conversion of a Pacific wall-clock time to the Eastern date and time fields.
   * It rests on the time-zone database, so the model takes it as a parameter.
   */
  type Converter = DateTime -> EasternStamp

  /** One row of the Calls sheet; `None` stands for an empty cell. */
  datatype Row = Row(startTime: Option<DateTime>, tags: Option<string>, station: string, callerPhone: string)

  datatype SkipReason = MissingStartTime | UnknownStation

  /** What one row contributes: a line, or nothing and the reason why. */
  datatype RowOutcome = Emitted(line: string) | Skipped(reason: SkipReason)

  /** The outcome of formatting one row, checking the start time first, then the station. */
  function FormatRow(row: Row, toEastern: Converter): (r: RowOutcome)
    ensures r == Skipped(MissingStartTime) <==> row.startTime.None?
    ensures r == Skipped(UnknownStation) <==> row.startTime.Some? && row.station !in StationLabels
  {
    match row.startTime
    case None => Skipped(MissingStartTime)
    case Some(t) =>
      var stamp := toEastern(t);
      var code := Code(row.tags);
      match LookupPhone(row.station)
      case None => Skipped(UnknownStation)
      case Some(phone) => Emitted(FormatLine(stamp.date, stamp.time, code, phone, AreaCode(row.callerPhone)))
  }

  /** The number of leading caller-phone characters that form the area code. */
  function AreaCodeLength(callerPhone: string): nat
  {
    if |callerPhone| < 3 then |callerPhone| else 3
  }

  /**
   * An emitted line is 105 + min(3, |caller phone|) characters and a newline, and read
   * back by position it holds the Eastern date and time of the start time, the response
   * code of the tags, the station's ten-digit number from the directory and the first
   * min(3, |caller phone|) characters of the caller's phone.
   */
  lemma EmittedLineFields(row: Row, toEastern: Converter)
    requires FormatRow(row, toEastern).Emitted?
    ensures var line := FormatRow(row, toEastern).line;
      |line| == 106 + AreaCodeLength(row.callerPhone) && line[|line| - 1] == '\n'
    ensures var f := ParseLine(FormatRow(row, toEastern).line);
      f.Some?
      && f.value.date == toEastern(row.startTime.value).date
      && f.value.time == toEastern(row.startTime.value).time
      && f.value.code == Code(row.tags)
      && row.station in PhoneNumberMapping && f.value.phone == PhoneNumberMapping[row.station]
      && |f.value.phone| == 10
      && f.value.areaCode == row.callerPhone[..AreaCodeLength(row.callerPhone)]
  {
    var stamp := toEastern(row.startTime.value);
    var phone := LookupPhone(row.station).value;
    FormatLineLayout(stamp.date, stamp.time, Code(row.tags), phone, AreaCode(row.callerPhone));
  }

  /** The lines a row outcome contributes to the report: one or none. */
  function LinesOf(outcome: RowOutcome): seq<string>
  {
    if outcome.Emitted? then [outcome.line] else []
  }

  /** The lines of the report for `rows`, in row order. */
  function ReportLines(rows: seq<Row>, toEastern: Converter): seq<string>
  {
    if rows == [] then []
    else ReportLines(rows[..|rows| - 1], toEastern) + LinesOf(FormatRow(rows[|rows| - 1], toEastern))
  }

  /** The report text: the lines written one after the other. */
  function Join(lines: seq<string>): string
  {
    if lines == [] then "" else Join(lines[..|lines| - 1]) + lines[|lines| - 1]
  }

  /** The Eastern date of the last row that has a start time, whether or not that row was emitted. */
  function LastStartDate(rows: seq<Row>, toEastern: Converter): Option<DateField>
  {
    if rows == [] then None
    else match rows[|rows| - 1].startTime
      case Some(t) => Some(toEastern(t).date)
      case None => LastStartDate(rows[..|rows| - 1], toEastern)
  }

  /** The name of the report file for a call date. */
  function FileName(date: DateField): (r: string)
    ensures |r| == 16
    ensures r[..4] == "WED_" && r[4..12] == date && r[12..] == ".txt"
  {
    "WED_" + date + ".txt"
  }

  /** The report file name; `None` when no row has a start time and the date was never set. */
  function ReportFileName(rows: seq<Row>, toEastern: Converter): Option<string>
  {
    match LastStartDate(rows, toEastern)
    case None => None
    case Some(d) => Some(FileName(d))
  }

  /**
   * Formats the rows of the Calls sheet into the report text and its file name, row by
   * row: a row without a start time is skipped; otherwise its date becomes the file-name
   * date, and the row is skipped if its station is unknown, else its line is appended.
   */
  method FormatReport(rows: seq<Row>, toEastern: Converter) returns (text: string, fileName: Option<string>)
    ensures text == Join(ReportLines(rows, toEastern))
    ensures fileName == ReportFileName(rows, toEastern)
  {
    var output := "";
    var dateStr: Option<DateField> := None;
    for i := 0 to |rows|
      invariant output == Join(ReportLines(rows[..i], toEastern))
      invariant dateStr == LastStartDate(rows[..i], toEastern)
    {
      var row := rows[i];
      assert rows[..i + 1][..i] == rows[..i];
      if row.startTime.None? {
        assert ReportLines(rows[..i + 1], toEastern) == ReportLines(rows[..i], toEastern);
        continue;
      }
      var stamp := toEastern(row.startTime.value);
      dateStr := Some(stamp.date);
      var code := Code(row.tags);
      var phone := LookupPhone(row.station);
      if phone.None? {
        assert FormatRow(row, toEastern) == Skipped(UnknownStation);
        assert ReportLines(rows[..i + 1], toEastern) == ReportLines(rows[..i], toEastern);
        continue;
      }
      var areaCode := AreaCode(row.callerPhone);
      var line := FormatLine(stamp.date, stamp.time, code, phone.value, areaCode);
      assert FormatRow(row, toEastern) == Emitted(line);
      ghost var lines := ReportLines(rows[..i + 1], toEastern);
      assert lines == ReportLines(rows[..i], toEastern) + [line];
      assert lines[..|lines| - 1] == ReportLines(rows[..i], toEastern);
      output := output + line;
    }
    assert rows[..|rows|] == rows;
    text := output;
    fileName := match dateStr
      case None => None
      case Some(d) => Some(FileName(d));
  }

  /** The lines of two consecutive runs of rows are the lines of the first, then those of the second. */
  lemma {:induction false} ReportLinesAppend(a: seq<Row>, b: seq<Row>, toEastern: Converter)
    ensures ReportLines(a + b, toEastern) == ReportLines(a, toEastern) + ReportLines(b, toEastern)
  {
    if b == [] {
      assert a + b == a;
    } else {
      var b' := b[..|b| - 1];
      assert (a + b)[..|a + b| - 1] == a + b';
      assert (a + b)[|a + b| - 1] == b[|b| - 1];
      ReportLinesAppend(a, b', toEastern);
    }
  }

  /** The text of two runs of lines is the text of the first followed by that of the second. */
  lemma {:induction false} JoinAppend(xs: seq<string>, ys: seq<string>)
    ensures Join(xs + ys) == Join(xs) + Join(ys)
  {
    if ys == [] {
      assert xs + ys == xs;
    } else {
      var ys' := ys[..|ys| - 1];
      assert (xs + ys)[..|xs + ys| - 1] == xs + ys';
      JoinAppend(xs, ys');
    }
  }

  /** The report text of two runs of rows is the text of the first followed by that of the second. */
  lemma ReportTextAppend(a: seq<Row>, b: seq<Row>, toEastern: Converter)
    ensures Join(ReportLines(a + b, toEastern))
         == Join(ReportLines(a, toEastern)) + Join(ReportLines(b, toEastern))
  {
    ReportLinesAppend(a, b, toEastern);
    JoinAppend(ReportLines(a, toEastern), ReportLines(b, toEastern));
  }

  /** A single row contributes its line if it is emitted and nothing if it is skipped. */
  lemma SingleRowReport(row: Row, toEastern: Converter)
    ensures ReportLines([row], toEastern) == LinesOf(FormatRow(row, toEastern))
  {
    assert [row][..0] == [];
  }

  /** A skipped row between two runs of rows adds nothing to their lines. */
  lemma SkippedRowBetween(pre: seq<Row>, row: Row, post: seq<Row>, toEastern: Converter)
    requires FormatRow(row, toEastern).Skipped?
    ensures ReportLines(pre + [row] + post, toEastern) == ReportLines(pre + post, toEastern)
  {
    ReportLinesAppend(pre + [row], post, toEastern);
    ReportLinesAppend(pre, [row], toEastern);
    SingleRowReport(row, toEastern);
    ReportLinesAppend(pre, post, toEastern);
  }

  lemma SplitAround(rows: seq<Row>, i: int)
    requires 0 <= i < |rows|
    ensures rows == rows[..i] + [rows[i]] + rows[i + 1..]
  {
  }

  /** Removing a skipped row, wherever it stands, leaves the report lines unchanged. */
  lemma SkippedRowContributesNothing(rows: seq<Row>, i: int, toEastern: Converter)
    requires 0 <= i < |rows| && FormatRow(rows[i], toEastern).Skipped?
    ensures ReportLines(rows, toEastern) == ReportLines(rows[..i] + rows[i + 1..], toEastern)
  {
    SplitAround(rows, i);
    SkippedRowBetween(rows[..i], rows[i], rows[i + 1..], toEastern);
  }

  /**
   * There are at most as many lines as rows, and exactly as many precisely when no row
   * is skipped.
   */
  lemma {:induction false} ReportLineCount(rows: seq<Row>, toEastern: Converter)
    ensures |ReportLines(rows, toEastern)| <= |rows|
    ensures |ReportLines(rows, toEastern)| == |rows|
            <==> forall i :: 0 <= i < |rows| ==> FormatRow(rows[i], toEastern).Emitted?
  {
    if rows != [] {
      var init := rows[..|rows| - 1];
      ReportLineCount(init, toEastern);
      assert forall i :: 0 <= i < |init| ==> init[i] == rows[i];
    }
  }

  /** Every line of the report is the line of some emitted row. */
  lemma {:induction false} ReportLinesAreEmitted(rows: seq<Row>, toEastern: Converter, j: int)
    requires 0 <= j < |ReportLines(rows, toEastern)|
    ensures exists i :: 0 <= i < |rows| && FormatRow(rows[i], toEastern) == Emitted(ReportLines(rows, toEastern)[j])
  {
    var init := rows[..|rows| - 1];
    if j < |ReportLines(init, toEastern)| {
      ReportLinesAreEmitted(init, toEastern, j);
      var i :| 0 <= i < |init| && FormatRow(init[i], toEastern) == Emitted(ReportLines(init, toEastern)[j]);
      assert rows[i] == init[i];
    } else {
      assert FormatRow(rows[|rows| - 1], toEastern) == Emitted(ReportLines(rows, toEastern)[j]);
    }
  }

  /**
   * Every line of the report is between 106 and 109 characters including its newline;
   * when every caller phone has at least three characters, every line is exactly 108
   * characters and a newline.
   */
  lemma ReportLineWidths(rows: seq<Row>, toEastern: Converter)
    ensures forall j :: 0 <= j < |ReportLines(rows, toEastern)| ==>
      106 <= |ReportLines(rows, toEastern)[j]| <= 109
    ensures (forall i :: 0 <= i < |rows| ==> |rows[i].callerPhone| >= 3) ==>
      forall j :: 0 <= j < |ReportLines(rows, toEastern)| ==> |ReportLines(rows, toEastern)[j]| == 109
  {
    forall j | 0 <= j < |ReportLines(rows, toEastern)|
      ensures exists i :: 0 <= i < |rows| && |ReportLines(rows, toEastern)[j]| == 106 + AreaCodeLength(rows[i].callerPhone)
    {
      ReportLinesAreEmitted(rows, toEastern, j);
      var i :| 0 <= i < |rows| && FormatRow(rows[i], toEastern) == Emitted(ReportLines(rows, toEastern)[j]);
      EmittedLineFields(rows[i], toEastern);
    }
  }

  /**
   * The file-name date is absent exactly when no row has a start time; otherwise it is
   * the Eastern date of the last row that has one.
   */
  lemma {:induction false} LastStartDateIsLastStartedRow(rows: seq<Row>, toEastern: Converter)
    ensures LastStartDate(rows, toEastern).None? <==> forall i :: 0 <= i < |rows| ==> rows[i].startTime.None?
    ensures LastStartDate(rows, toEastern).Some? ==>
      exists i :: 0 <= i < |rows| && rows[i].startTime.Some?
        && LastStartDate(rows, toEastern).value == toEastern(rows[i].startTime.value).date
        && forall j :: i < j < |rows| ==> rows[j].startTime.None?
  {
    if rows != [] {
      var init := rows[..|rows| - 1];
      LastStartDateIsLastStartedRow(init, toEastern);
      assert forall i :: 0 <= i < |init| ==> init[i] == rows[i];
      if rows[|rows| - 1].startTime.None? && LastStartDate(init, toEastern).Some? {
        var i :| 0 <= i < |init| && init[i].startTime.Some?
          && LastStartDate(init, toEastern).value == toEastern(init[i].startTime.value).date
          && forall j :: i < j < |init| ==> init[j].startTime.None?;
        assert rows[i] == init[i];
      }
    }
  }

  /**
   * The file-name date can come from a row that contributes no line: here the second row
   * has a start time but an unknown station, so the report holds only the first row's
   * line while the file is named after the second row's date.
   */
  lemma FileNameFromDroppedRow(t1: DateTime, t2: DateTime, toEastern: Converter)
    ensures var rows := [Row(Some(t1), None, "Radio 1", "4085551234"), Row(Some(t2), None, "Radio 99", "4085551234")];
      ReportLines(rows, toEastern) == [FormatRow(rows[0], toEastern).line]
      && FormatRow(rows[1], toEastern) == Skipped(UnknownStation)
      && ReportFileName(rows, toEastern) == Some(FileName(toEastern(t2).date))
  {
    var rows := [Row(Some(t1), None, "Radio 1", "4085551234"), Row(Some(t2), None, "Radio 99", "4085551234")];
    assert rows[..1] == [rows[0]];
    SingleRowReport(rows[0], toEastern);
  }

  /**
   * A Radio 3 call tagged "Missed Call - VM" from 408-555-1234 is reported as a `CALL`
   * to 8006196330 from area code 408, at the Eastern equivalent of its start time.
   */
  lemma MissedCallScenario(t: DateTime, tags: string, toEastern: Converter)
    requires tags == "Missed Call - VM"
    ensures FormatRow(Row(Some(t), Some(tags), "Radio 3", "4085551234"), toEastern)
         == Emitted(FormatLine(toEastern(t).date, toEastern(t).time, "CALL", "8006196330", "408"))
  {
    forall j | 0 <= j < 11 ensures LowerChar(tags[j]) == "missed call"[j] {}
    assert MatchesIgnoringCaseAt(tags, "missed call", 0);
    CodeIsCallIff(Some(tags));
    assert LookupPhone("Radio 3") == Some("8006196330");
    assert "4085551234"[..3] == "408";
  }
}
