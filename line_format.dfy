/**
 * The fixed-width layout of one report line, the station phone directory and the
 * derived caller area code.
 */
module LineFormat {
  import opened Wrappers

  const TelemarketerCode: string := "INHS"
  const OriginalOrRerun: string := "O"
  const MediaClientCode: string := "RAWEDH"
  const ResponseCounterField: string := "000001"

  /** A call date in the Eastern zone, `YYYYMMDD`. */
  type DateField = s: string | |s| == 8 witness "00000000"
  /** A call time in the Eastern zone, `HHMM`. */
  type TimeField = s: string | |s| == 4 witness "0000"

  /** `n` blanks. */
  function Spaces(n: nat): (r: string)
    ensures |r| == n && forall i :: 0 <= i < n ==> r[i] == ' '
  {
    seq(n, _ => ' ')
  }

  /** The ten station labels of the directory. */
  const StationLabels: set<string> :=
    {"Radio 1", "Radio 2", "Radio 3", "Radio 4", "Radio 5",
     "Radio 6", "Radio 7", "Radio 8", "Radio 9", "Radio 10"}

  /** The station phone directory: station label to its outbound report number. */
  const PhoneNumberMapping: map<string, string> := map[
    "Radio 1" := "8009096617",
    "Radio 2" := "8009097413",
    "Radio 3" := "8006196330",
    "Radio 4" := "8006197121",
    "Radio 5" := "8009171020",
    "Radio 6" := "8007819600",
    "Radio 7" := "8007838500",
    "Radio 8" := "8009171011",
    "Radio 9" := "8003072010",
    "Radio 10" := "8006832030"
  ]

  predicate IsDigits(s: string)
  {
    forall i :: 0 <= i < |s| ==> '0' <= s[i] <= '9'
  }

  /**
   * The phone number reported for a station label; `None` when the label is not one
   * of the ten in the directory. Every number found has ten digits.
   */
  function LookupPhone(station: string): (r: Option<string>)
    ensures r.Some? <==> station in StationLabels
    ensures r.Some? ==> |r.value| == 10 && IsDigits(r.value)
  {
    if station in PhoneNumberMapping then Some(PhoneNumberMapping[station]) else None
  }

  /** The area code of a caller: up to three leading characters, never padded. */
  function AreaCode(callerPhone: string): (r: string)
    ensures r <= callerPhone
    ensures |r| <= 3
    ensures |r| == 3 || r == callerPhone
  {
    if |callerPhone| < 3 then callerPhone else callerPhone[..3]
  }

  /** Everything in a line before the call date: constants and blank padding, 47 characters. */
  function Header(): string
  {
    TelemarketerCode + OriginalOrRerun + Spaces(12) + MediaClientCode + Spaces(24)
  }

  /** Everything in a line after the area code: 21 blanks and the newline. */
  function Trailer(): string
  {
    Spaces(21) + "\n"
  }

  /** One report line: the fields in their fixed order, terminated by a newline. */
  function FormatLine(date: DateField, time: TimeField, code: string, phone: string, areaCode: string): string
  {
    Header() + date + time + code + ResponseCounterField + phone + Spaces(5) + areaCode + Trailer()
  }

  /** The variable fields of one report line. */
  datatype LineFields = LineFields(date: string, time: string, code: string, phone: string, areaCode: string)

  /**
   * Reads a line back by position, as the downstream consumer of the report does:
   * date at 47, time at 55, code at 59, counter at 63, phone at 69, blank zip at 79,
   * area code from 84 up to the 21 trailing blanks and the newline. `None` when the
   * constant parts are not where the layout puts them.
   */
  function ParseLine(line: string): Option<LineFields>
  {
    if |line| < 106 || line[..47] != Header() || line[63..69] != ResponseCounterField
       || line[79..84] != Spaces(5) || line[|line| - 22..] != Trailer()
    then None
    else Some(LineFields(line[47..55], line[55..59], line[59..63], line[69..79], line[84..|line| - 22]))
  }

  /**
   * A line built from a 4-character code and a 10-character phone is 105 characters
   * plus the area code's length, plus the newline, and reading it back by position
   * gives exactly the fields it was built from.
   */
  lemma FormatLineLayout(date: DateField, time: TimeField, code: string, phone: string, areaCode: string)
    requires |code| == 4 && |phone| == 10
    ensures |FormatLine(date, time, code, phone, areaCode)| == 106 + |areaCode|
    ensures FormatLine(date, time, code, phone, areaCode)[|FormatLine(date, time, code, phone, areaCode)| - 1] == '\n'
    ensures ParseLine(FormatLine(date, time, code, phone, areaCode))
            == Some(LineFields(date, time, code, phone, areaCode))
  {
    var line := FormatLine(date, time, code, phone, areaCode);
    var middle := date + time + code + ResponseCounterField + phone + Spaces(5) + areaCode;
    assert line == Header() + middle + Trailer();
    assert |Header()| == 47;
    assert |Trailer()| == 22;
    var n := |line|;
    assert line[..47] == Header();
    assert line[n - 22..] == Trailer();
    assert line[47..n - 22] == middle;
    assert line[47..55] == middle[..8] == date;
    assert line[55..59] == middle[8..12] == time;
    assert line[59..63] == middle[12..16] == code;
    assert line[63..69] == middle[16..22] == ResponseCounterField;
    assert line[69..79] == middle[22..32] == phone;
    assert line[79..84] == middle[32..37] == Spaces(5);
    assert line[84..n - 22] == middle[37..] == areaCode;
  }
}
