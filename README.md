# Call-log report formatter

A model of the row-to-line encoder of `app_format_report.py`. The encoder reads rows of a
Calls sheet: a start time, free-text tags, a station label ("Radio 1" to "Radio 10") and the
caller's phone number. For each row it derives four things:

- the Eastern call date and time;
- a response code: `CALL` for junk, missed, test and wrong-number calls, `VCAL` otherwise;
- the station's outbound number, from a ten-entry directory;
- the caller's area code.

It then writes one fixed-width line per row. A row is dropped when its start time is missing
or its station is unknown. The report text is the lines in row order. The file name is
`WED_<date>.txt`.

Modules:

- `Wrappers`: `Option`, which stands for an empty cell.
- `ResponseCode`: ASCII lower-casing, the substring test, the response code, and the
  case-insensitive characterisation of the code.
- `LineFormat`: the constants, the station directory, the area code and the line assembly.
  It also has `ParseLine`, which reads a line back by character position. `ParseLine` is
  used to state the field offsets and to prove that the line assembly can be inverted.
- `Report`: the row record, the outcome of one row (`Emitted(line)` or `Skipped(reason)`),
  and the specification functions `ReportLines`, `Join`, `LastStartDate` and
  `ReportFileName`. It also has the method `FormatReport`. That method is the loop of
  `main()`: it accumulates the output text and carries the date forward from row to row.
  `FormatReport` is proved equal to the specification functions.

The time-zone conversion (Pacific wall clock to the Eastern `YYYYMMDD` date and `HHMM`
time) is a parameter `toEastern` of type `Converter`. Its result fields are typed as strings
of exactly 8 and 4 characters.

Two behaviours of the code are easy to misread:

- Line width. The area code is not padded, so a line is 105 + min(3, |caller phone|)
  characters plus the newline. It is 108 characters only when the caller phone has at least
  three characters (`ReportLineWidths`).
- File-name date. `date_str` is assigned before the unknown-station skip. The date
  therefore comes from the last row that has a start time, even if that row was then
  dropped, and not necessarily from the last row written (`FileNameFromDroppedRow`). When
  no row has a start time, `date_str` is never bound and the source fails with an
  unbound-variable error. The model returns `None` instead.

## Model

| member | source | states |
|---|---|---|
| `ResponseCode.Lower` | app_format_report.py:40 | lower-casing keeps the length and maps each character through ASCII lower-casing |
| `ResponseCode.Occurs` | app_format_report.py:41 | the substring test `keyword in tags_lower`; its meaning is stated by `OccursIff` |
| `ResponseCode.AnyKeyword` | app_format_report.py:41 | the `any(...)` over the four keywords; its meaning (some keyword matches at some position, ignoring case) is stated by `CodeIsCallIff` |
| `ResponseCode.OccursIff` | app_format_report.py:41 | the substring test holds exactly when the keyword appears at some position of the text |
| `ResponseCode.OccursInLowerIff` | app_format_report.py:40-41 | a keyword appears in the lower-cased tags at a position exactly when it matches the tags there, letters compared without case |
| `ResponseCode.Code` | app_format_report.py:37-43 | the code is `CALL` or `VCAL`, four characters, and absent tags give `VCAL` |
| `ResponseCode.CodeIsCallIff` | app_format_report.py:37-43 | the code is `CALL` exactly when the tags are present and one of `junk`, `missed call`, `test`, `wrong number` occurs in them ignoring case; otherwise `VCAL` |
| `ResponseCode.CodeIgnoresCase` | app_format_report.py:40-41 | tags that differ only in ASCII letter case get the same code |
| `LineFormat.Spaces` | app_format_report.py:68 | the padding is `n` blank characters |
| `LineFormat.LookupPhone` | app_format_report.py:12-23 | a number is found exactly for the ten labels "Radio 1".."Radio 10", and every number found has ten digits |
| `LineFormat.AreaCode` | app_format_report.py:98 | the area code is a prefix of the caller phone of at most three characters, and it is the whole phone when the phone is shorter than three characters |
| `LineFormat.FormatLine` | app_format_report.py:104-118 | the line assembly; its meaning (length, and every field recovered by position) is stated by `FormatLineLayout` |
| `LineFormat.FormatLineLayout` | app_format_report.py:104-118 | a line is 105 + \|area code\| characters and a newline, and reading it back by position gives the date, time, code, phone and area code it was built from |
| `Report.FormatRow` | app_format_report.py:77-92 | a row is skipped for a missing start time exactly when it has none, and for an unknown station exactly when it has a start time and its label is not a directory key |
| `Report.EmittedLineFields` | app_format_report.py:80-118 | an emitted line is 105 + min(3, \|caller phone\|) characters and a newline, and it holds the Eastern date and time, the tag code, the station's ten-digit directory number and the first min(3, \|caller phone\|) characters of the caller phone |
| `Report.FileName` | app_format_report.py:128 | the file name is 16 characters: `WED_`, the date, `.txt` |
| `Report.FormatReport` | app_format_report.py:60-128 | the loop's accumulated text is the concatenation of the row lines in order, and the file name is built from the date of the last row with a start time, or is absent when there is none |
| `Report.ReportLines` | app_format_report.py:60-121 | the lines the loop writes, in row order; stated by `ReportLinesAppend`, `ReportLineCount`, `SingleRowReport` and `ReportLinesAreEmitted` |
| `Report.Join` | app_format_report.py:121 | the text accumulated by `output_txt.write`; stated by `JoinAppend` |
| `Report.LastStartDate` | app_format_report.py:80 | the loop-carried `date_str`; stated by `LastStartDateIsLastStartedRow` |
| `Report.ReportFileName` | app_format_report.py:128 | `WED_<date_str>.txt`, absent when `date_str` is never bound; stated by `FileName` and `LastStartDateIsLastStartedRow` |
| `Report.ReportLinesAppend` | app_format_report.py:60-121 | the lines of two consecutive runs of rows are the first run's lines followed by the second's (order is preserved) |
| `Report.JoinAppend` | app_format_report.py:121 | writing two runs of lines gives the first run's text followed by the second's |
| `Report.ReportTextAppend` | app_format_report.py:60-125 | the report text of two runs of rows is the first run's text followed by the second's |
| `Report.SingleRowReport` | app_format_report.py:60-121 | one row contributes exactly its line when emitted and nothing when skipped |
| `Report.SkippedRowBetween` | app_format_report.py:77-92 | a skipped row between two runs of rows adds no line to theirs |
| `Report.SkippedRowContributesNothing` | app_format_report.py:77-92 | removing a skipped row (missing start time or unknown station), wherever it stands, leaves the report unchanged |
| `Report.ReportLineCount` | app_format_report.py:60-121 | there are at most as many lines as rows, with equality exactly when no row is skipped |
| `Report.ReportLinesAreEmitted` | app_format_report.py:60-121 | every report line is the line of some emitted row |
| `Report.ReportLineWidths` | app_format_report.py:98-118 | every line is 106 to 109 characters including the newline, and exactly 109 when every caller phone has at least three characters |
| `Report.LastStartDateIsLastStartedRow` | app_format_report.py:78-80 | the file-name date is absent exactly when no row has a start time, and otherwise it is the Eastern date of the last row that has one |
| `Report.FileNameFromDroppedRow` | app_format_report.py:89-92 | a row with a start time and an unknown station contributes no line, but it still sets the file-name date |
| `Report.MissedCallScenario` | app_format_report.py:37-43 | a Radio 3 call tagged "Missed Call - VM" from 4085551234 gives code `CALL`, phone field 8006196330 and area code 408 |

## Left out

- The Streamlit page, the file uploader and the download button are presentation and I/O.
  The model takes the rows as a sequence and returns the text and the file name.
- Reading the workbook (`pd.read_excel`, the `Calls` sheet) is done by a foreign library.
  Columns that are absent, and cells of an unexpected type, are not modelled. Examples are a
  number in the tags cell, where `lower()` would fail, and a number in the phone cell, where
  slicing would fail. The caller phone is always a string here.
- An empty station cell is represented by a label that is not in the directory. The row is
  then dropped, as the dictionary lookup drops it.
- The Pacific-to-Eastern conversion and `strftime` depend on the time-zone database and its
  daylight-saving rules. The model takes the conversion as the parameter `toEastern`. The
  only thing assumed about it is the widths of the date and time strings.
- `ResponseCode.Lower`: models only ASCII lower-casing. Python's `str.lower` also folds
  non-ASCII letters, and some of those change the string's length.
- The `StringIO` buffer, `seek` and `getvalue` are modelled as a string accumulated by the
  loop.
- The unbound `date_str` when no row has a start time is modelled as an absent file name
  (`None`). The source raises an error in that case.
