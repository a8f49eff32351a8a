/**
 * The filter whitelists of the MariaDB store and the timestamp check used by
 * the audit filters (internal/persistence/mariadb/mariadb.go). Each entry
 * builds a where-clause, its bound values and, where the value is checked,
 * an error.
 */
module MariadbFilters {
  import opened Common

  /** What a filter entry returns: clause, bound values and an error or nil. */
  datatype FilterOutput = FilterOutput(clause: string, values: seq<string>, err: Option<HttpError>)

  /** attribute -> operator -> clause builder */
  type CheckedFilterTable = map<string, map<string, string -> FilterOutput>>

  // ---------------------------------------------------------------------
  // Shapes matched by the regular expressions of validateTimestamp

  predicate DigitsAt(v: string, lo: nat, hi: nat)
    requires lo <= hi <= |v|
  {
    AllDigits(v[lo..hi])
  }

  /** The `\d{4}-\d{2}-\d{2}` prefix both expressions start with. */
  predicate DatePart(v: string) {
    |v| >= 10 && DigitsAt(v, 0, 4) && v[4] == '-' && DigitsAt(v, 5, 7) && v[7] == '-' && DigitsAt(v, 8, 10)
  }

  /** `^\d{4}-\d{2}-\d{2}$` */
  predicate DateShape(v: string) {
    |v| == 10 && DatePart(v)
  }

  /** `^\d{4}-\d{2}-\d{2} \d{2}:\d{2}:\d{2}$` */
  predicate DateTimeShape(v: string) {
    |v| == 19 && DatePart(v) && v[10] == ' '
    && DigitsAt(v, 11, 13) && v[13] == ':' && DigitsAt(v, 14, 16) && v[16] == ':' && DigitsAt(v, 17, 19)
  }

  /** The number written by the digits `v[lo..hi]`. */
  function Field(v: string, lo: nat, hi: nat): nat
    requires lo <= hi <= |v| && DigitsAt(v, lo, hi)
  {
    DecimalValue(v[lo..hi])
  }

  // ---------------------------------------------------------------------
  // The Gregorian calendar as Go's time package uses it

  predicate IsLeapYear(year: nat) {
    year % 4 == 0 && (year % 100 != 0 || year % 400 == 0)
  }

  function DaysIn(month: nat, year: nat): (n: nat)
    requires 1 <= month <= 12
    ensures 28 <= n <= 31
  {
    if month == 2 then (if IsLeapYear(year) then 29 else 28)
    else if month == 4 || month == 6 || month == 9 || month == 11 then 30
    else 31
  }

  /**
   * The element `time.Parse` reports out of range, if any, for a value of
   * the right shape. Month, hour, minute and second are checked as they
   * are read, left to right; the day is checked against the month once
   * everything has been read.
   */
  function OutOfRange(v: string): Option<string>
    requires DateShape(v) || DateTimeShape(v)
  {
    var year := Field(v, 0, 4);
    var month := Field(v, 5, 7);
    var day := Field(v, 8, 10);
    if !(1 <= month <= 12) then Some("month")
    else if |v| == 19 && Field(v, 11, 13) >= 24 then Some("hour")
    else if |v| == 19 && Field(v, 14, 16) >= 60 then Some("minute")
    else if |v| == 19 && Field(v, 17, 19) >= 60 then Some("second")
    else if !(1 <= day <= DaysIn(month, year)) then Some("day")
    else None
  }

  const TimestampFormatMessage: string :=
    "timestamp filter must be on the format 'YYYY-MM-DD' or 'YYYY-MM-DD HH:MM:SS'"

  /** The text of the wrapped `time.ParseError`. */
  function ParseErrorMessage(v: string, element: string): string {
    "timestamp parsing error parsing time \"" + v + "\": " + element + " out of range"
  }

  /** validateTimestamp: `None` is a nil error. */
  function ValidateTimestamp(v: string): (r: Option<HttpError>)
    ensures r.Some? ==> r.value.status == StatusBadRequest
    ensures !DateShape(v) && !DateTimeShape(v) ==> r == Some(BadRequest(TimestampFormatMessage))
  {
    if DateTimeShape(v) || DateShape(v) then
      match OutOfRange(v)
      case None => None
      case Some(element) => Some(BadRequest(ParseErrorMessage(v, element)))
    else Some(BadRequest(TimestampFormatMessage))
  }

  // ---------------------------------------------------------------------
  // Reference definition: the strings that denote a real date or date-time

  predicate ValidDate(year: nat, month: nat, day: nat) {
    year < 10000 && 1 <= month <= 12 && 1 <= day <= DaysIn(month, year)
  }

  predicate ValidTime(hour: nat, minute: nat, second: nat) {
    hour < 24 && minute < 60 && second < 60
  }

  function DateText(year: nat, month: nat, day: nat): string {
    PaddedDecimal(year, 4) + "-" + PaddedDecimal(month, 2) + "-" + PaddedDecimal(day, 2)
  }

  function DateTimeText(year: nat, month: nat, day: nat, hour: nat, minute: nat, second: nat): string {
    DateText(year, month, day) + " " + PaddedDecimal(hour, 2) + ":" + PaddedDecimal(minute, 2) + ":" + PaddedDecimal(second, 2)
  }

  /** `YYYY-MM-DD` naming a day of the calendar. */
  ghost predicate IsCalendarDate(v: string) {
    exists year: nat, month: nat, day: nat :: ValidDate(year, month, day) && v == DateText(year, month, day)
  }

  /** `YYYY-MM-DD HH:MM:SS` naming a second of such a day. */
  ghost predicate IsCalendarDateTime(v: string) {
    exists year: nat, month: nat, day: nat, hour: nat, minute: nat, second: nat ::
      ValidDate(year, month, day) && ValidTime(hour, minute, second)
      && v == DateTimeText(year, month, day, hour, minute, second)
  }

  lemma DateTextReadsBack(year: nat, month: nat, day: nat)
    requires ValidDate(year, month, day)
    ensures DateShape(DateText(year, month, day))
    ensures var v := DateText(year, month, day);
            Field(v, 0, 4) == year && Field(v, 5, 7) == month && Field(v, 8, 10) == day
  {
    var v := DateText(year, month, day);
    assert v[0..4] == PaddedDecimal(year, 4);
    assert v[5..7] == PaddedDecimal(month, 2);
    assert v[8..10] == PaddedDecimal(day, 2);
    DecimalOfPadded(year, 4);
    DecimalOfPadded(month, 2);
    DecimalOfPadded(day, 2);
  }

  lemma DateTimeTextReadsBack(year: nat, month: nat, day: nat, hour: nat, minute: nat, second: nat)
    requires ValidDate(year, month, day) && ValidTime(hour, minute, second)
    ensures DateTimeShape(DateTimeText(year, month, day, hour, minute, second))
    ensures var v := DateTimeText(year, month, day, hour, minute, second);
            Field(v, 0, 4) == year && Field(v, 5, 7) == month && Field(v, 8, 10) == day
            && Field(v, 11, 13) == hour && Field(v, 14, 16) == minute && Field(v, 17, 19) == second
  {
    var v := DateTimeText(year, month, day, hour, minute, second);
    assert v[0..4] == PaddedDecimal(year, 4);
    assert v[5..7] == PaddedDecimal(month, 2);
    assert v[8..10] == PaddedDecimal(day, 2);
    assert v[11..13] == PaddedDecimal(hour, 2);
    assert v[14..16] == PaddedDecimal(minute, 2);
    assert v[17..19] == PaddedDecimal(second, 2);
    DecimalOfPadded(year, 4);
    DecimalOfPadded(month, 2);
    DecimalOfPadded(day, 2);
    DecimalOfPadded(hour, 2);
    DecimalOfPadded(minute, 2);
    DecimalOfPadded(second, 2);
  }

  /** The date prefix is the text of the date its fields name. */
  lemma DatePartIsText(v: string)
    requires DatePart(v)
    ensures Field(v, 0, 4) < 10000
    ensures v[..10] == DateText(Field(v, 0, 4), Field(v, 5, 7), Field(v, 8, 10))
  {
    PaddedOfDecimal(v[0..4]);
    PaddedOfDecimal(v[5..7]);
    PaddedOfDecimal(v[8..10]);
    assert v[..10] == v[0..4] + "-" + v[5..7] + "-" + v[8..10];
  }

  lemma DateTimeShapeIsText(v: string)
    requires DateTimeShape(v)
    ensures Field(v, 0, 4) < 10000
    ensures v == DateTimeText(Field(v, 0, 4), Field(v, 5, 7), Field(v, 8, 10),
                              Field(v, 11, 13), Field(v, 14, 16), Field(v, 17, 19))
  {
    DatePartIsText(v);
    PaddedOfDecimal(v[11..13]);
    PaddedOfDecimal(v[14..16]);
    PaddedOfDecimal(v[17..19]);
    assert v == v[..10] + " " + v[11..13] + ":" + v[14..16] + ":" + v[17..19];
  }

  /** Every accepted string writes a calendar date or date-time. */
  lemma AcceptedIsCalendar(v: string)
    requires ValidateTimestamp(v).None?
    ensures IsCalendarDate(v) || IsCalendarDateTime(v)
  {
    var year, month, day := Field(v, 0, 4), Field(v, 5, 7), Field(v, 8, 10);
    if |v| == 19 {
      DateTimeShapeIsText(v);
      var hour, minute, second := Field(v, 11, 13), Field(v, 14, 16), Field(v, 17, 19);
      assert ValidDate(year, month, day) && ValidTime(hour, minute, second);
      assert IsCalendarDateTime(v);
    } else {
      DatePartIsText(v);
      assert v[..10] == v;
      assert ValidDate(year, month, day);
      assert IsCalendarDate(v);
    }
  }

  lemma DateTextAccepted(year: nat, month: nat, day: nat)
    requires ValidDate(year, month, day)
    ensures ValidateTimestamp(DateText(year, month, day)).None?
  {
    DateTextReadsBack(year, month, day);
  }

  lemma DateTimeTextAccepted(year: nat, month: nat, day: nat, hour: nat, minute: nat, second: nat)
    requires ValidDate(year, month, day) && ValidTime(hour, minute, second)
    ensures ValidateTimestamp(DateTimeText(year, month, day, hour, minute, second)).None?
  {
    DateTimeTextReadsBack(year, month, day, hour, minute, second);
  }

  /** Every calendar date or date-time is accepted. */
  lemma CalendarIsAccepted(v: string)
    requires IsCalendarDate(v) || IsCalendarDateTime(v)
    ensures ValidateTimestamp(v).None?
  {
    if IsCalendarDateTime(v) {
      var year: nat, month: nat, day: nat, hour: nat, minute: nat, second: nat :|
        ValidDate(year, month, day) && ValidTime(hour, minute, second)
        && v == DateTimeText(year, month, day, hour, minute, second);
      DateTimeTextAccepted(year, month, day, hour, minute, second);
    } else {
      var year: nat, month: nat, day: nat :| ValidDate(year, month, day) && v == DateText(year, month, day);
      DateTextAccepted(year, month, day);
    }
  }

  /**
   * validateTimestamp accepts exactly the strings that write a real
   * calendar date, or a real date and a time from 00:00:00 to 23:59:59.
   */
  lemma ValidateTimestampAcceptsCalendar(v: string)
    ensures ValidateTimestamp(v).None? <==> IsCalendarDate(v) || IsCalendarDateTime(v)
  {
    if ValidateTimestamp(v).None? {
      AcceptedIsCalendar(v);
    }
    if IsCalendarDate(v) || IsCalendarDateTime(v) {
      CalendarIsAccepted(v);
    }
  }

  lemma FourDigits(v: string, a: char, b: char, c: char, d: char)
    requires |v| >= 4 && v[0] == a && v[1] == b && v[2] == c && v[3] == d
    requires IsDigit(a) && IsDigit(b) && IsDigit(c) && IsDigit(d)
    ensures DigitsAt(v, 0, 4)
    ensures Field(v, 0, 4) == 1000 * DigitValue(a) + 100 * DigitValue(b) + 10 * DigitValue(c) + DigitValue(d)
  {
    var w := v[0..4];
    assert w[..3][..2][..1][..0] == [];
    assert w[..3][..2][..1] == [a];
    assert w[..3][..2] == [a, b];
    assert w[..3] == [a, b, c];
    assert DecimalValue([a]) == DigitValue(a);
    assert DecimalValue([a, b]) == 10 * DigitValue(a) + DigitValue(b);
    assert DecimalValue([a, b, c]) == 100 * DigitValue(a) + 10 * DigitValue(b) + DigitValue(c);
  }

  lemma TwoDigits(v: string, lo: nat, a: char, b: char)
    requires lo + 2 <= |v| && v[lo] == a && v[lo + 1] == b && IsDigit(a) && IsDigit(b)
    ensures DigitsAt(v, lo, lo + 2)
    ensures Field(v, lo, lo + 2) == 10 * DigitValue(a) + DigitValue(b)
  {
    var w := v[lo..lo + 2];
    assert w[..1][..0] == [];
    assert w[..1] == [a];
    assert DecimalValue([a]) == DigitValue(a);
  }

  /** Month 13 is reported as the month being out of range. */
  lemma MonthOutOfRangeReported()
    ensures ValidateTimestamp("2024-13-01") == Some(BadRequest(ParseErrorMessage("2024-13-01", "month")))
  {
    var v := "2024-13-01";
    FourDigits(v, '2', '0', '2', '4');
    TwoDigits(v, 5, '1', '3');
    TwoDigits(v, 8, '0', '1');
  }

  /** The day is checked against the month and the leap-year rule. */
  lemma LeapDayChecked()
    ensures ValidateTimestamp("2024-02-29").None?
    ensures ValidateTimestamp("2023-02-29") == Some(BadRequest(ParseErrorMessage("2023-02-29", "day")))
  {
    var v := "2024-02-29";
    FourDigits(v, '2', '0', '2', '4');
    TwoDigits(v, 5, '0', '2');
    TwoDigits(v, 8, '2', '9');
    var w := "2023-02-29";
    FourDigits(w, '2', '0', '2', '3');
    TwoDigits(w, 5, '0', '2');
    TwoDigits(w, 8, '2', '9');
  }

  /**
   * The order in which time.Parse reports a value out of range: the month
   * first, then hour, minute and second, and the day only when all of
   * those are in range, whatever the day is.
   */
  lemma RangeCheckOrder(v: string)
    requires DateShape(v) || DateTimeShape(v)
    ensures !(1 <= Field(v, 5, 7) <= 12) ==> ValidateTimestamp(v) == Some(BadRequest(ParseErrorMessage(v, "month")))
    ensures DateTimeShape(v) && 1 <= Field(v, 5, 7) <= 12 && Field(v, 11, 13) >= 24 ==>
              ValidateTimestamp(v) == Some(BadRequest(ParseErrorMessage(v, "hour")))
    ensures ValidateTimestamp(v) == Some(BadRequest(ParseErrorMessage(v, "day"))) ==>
              1 <= Field(v, 5, 7) <= 12
              && (DateTimeShape(v) ==> ValidTime(Field(v, 11, 13), Field(v, 14, 16), Field(v, 17, 19)))
              && !(1 <= Field(v, 8, 10) <= DaysIn(Field(v, 5, 7), Field(v, 0, 4)))
  {
    if ValidateTimestamp(v) == Some(BadRequest(ParseErrorMessage(v, "day"))) {
      var element := OutOfRange(v).value;
      var prefix := "timestamp parsing error parsing time \"" + v + "\": ";
      assert ParseErrorMessage(v, element) == prefix + element + " out of range";
      assert ParseErrorMessage(v, "day") == prefix + "day" + " out of range";
      assert |element| == 3 by {
        assert |ParseErrorMessage(v, element)| == |ParseErrorMessage(v, "day")|;
      }
      assert element[0] == ParseErrorMessage(v, element)[|prefix|];
      assert element[0] == 'd';
    }
  }

  /** An hour of 24 is reported before a day that is out of range. */
  lemma HourReportedBeforeDay()
    ensures ValidateTimestamp("2023-02-30 24:00:00")
            == Some(BadRequest(ParseErrorMessage("2023-02-30 24:00:00", "hour")))
  {
    var v := "2023-02-30 24:00:00";
    FourDigits(v, '2', '0', '2', '3');
    TwoDigits(v, 5, '0', '2');
    TwoDigits(v, 8, '3', '0');
    TwoDigits(v, 11, '2', '4');
    TwoDigits(v, 14, '0', '0');
    TwoDigits(v, 17, '0', '0');
  }

  // ---------------------------------------------------------------------
  // The three whitelists

  const IdMessage: string := "id filter must be an integer value"
  const DeviceIdMessage: string := "deviceId filter must be an integer value"

  /** An equality filter on `column` that binds the raw value. */
  function Equals(column: string): string -> FilterOutput {
    value => FilterOutput(column + " = ?", [value], None)
  }

  /** An equality filter on `column` that admits only `^\d+$`. */
  function IntegerEquals(column: string, message: string): string -> FilterOutput {
    value =>
      if IsDigitString(value) then FilterOutput(column + " = ?", [value], None)
      else FilterOutput("", [], Some(BadRequest(message)))
  }

  /** A comparison on the timestamp column, erring when the value is not a timestamp. */
  function TimestampCompare(symbol: string): string -> FilterOutput {
    value => FilterOutput("timestamp " + symbol + " ?", [value], ValidateTimestamp(value))
  }

  const DeviceFilters: CheckedFilterTable := map[
    "bridge-identifier" := map["eq" := Equals("bridgeIdentifier")],
    "id" := map["eq" := IntegerEquals("id", IdMessage)]
  ]

  const DeviceAttributeAuditFilters: CheckedFilterTable := map[
    "deviceId" := map["eq" := IntegerEquals("deviceId", DeviceIdMessage)],
    "name" := map["eq" := Equals("name")],
    "timestamp" := map["eq" := TimestampCompare("="), "gt" := TimestampCompare(">"), "lt" := TimestampCompare("<")]
  ]

  const GroupFilters: CheckedFilterTable := map[
    "bridge-identifier" := map["eq" := Equals("bridgeIdentifier")],
    "id" := map["eq" := Equals("id")],
    "bridge-key" := map["eq" := Equals("bridgeKey")]
  ]

  /** The operators a table offers on an attribute, none if it is not listed. */
  function OperatorsOf(table: CheckedFilterTable, attribute: string): set<string> {
    if attribute in table then table[attribute].Keys else {}
  }

  /** Devices filter on bridge-identifier and id, both with `eq` only. */
  lemma DeviceFiltersOffered()
    ensures DeviceFilters.Keys == {"bridge-identifier", "id"}
    ensures OperatorsOf(DeviceFilters, "bridge-identifier") == {"eq"} && OperatorsOf(DeviceFilters, "id") == {"eq"}
  {
  }

  /**
   * A bridge-identifier filter binds any value; an id filter binds only a
   * digit string and refuses anything else with a 400 and no clause.
   */
  lemma DeviceFiltersBuild(value: string)
    ensures DeviceFilters["bridge-identifier"]["eq"](value) == FilterOutput("bridgeIdentifier = ?", [value], None)
    ensures DeviceFilters["id"]["eq"](value).err.None? <==> IsDigitString(value)
    ensures IsDigitString(value) ==> DeviceFilters["id"]["eq"](value) == FilterOutput("id = ?", [value], None)
    ensures !IsDigitString(value) ==> DeviceFilters["id"]["eq"](value) == FilterOutput("", [], Some(BadRequest(IdMessage)))
  {
  }

  /** Audits filter on deviceId and name with `eq`, and on timestamp with eq, gt and lt. */
  lemma AuditFiltersOffered()
    ensures DeviceAttributeAuditFilters.Keys == {"deviceId", "name", "timestamp"}
    ensures OperatorsOf(DeviceAttributeAuditFilters, "deviceId") == {"eq"}
    ensures OperatorsOf(DeviceAttributeAuditFilters, "name") == {"eq"}
    ensures OperatorsOf(DeviceAttributeAuditFilters, "timestamp") == {"eq", "gt", "lt"}
  {
  }

  /** deviceId binds only a digit string; name binds any value. */
  lemma AuditFiltersBuild(value: string)
    ensures DeviceAttributeAuditFilters["deviceId"]["eq"](value).err.None? <==> IsDigitString(value)
    ensures IsDigitString(value) ==> DeviceAttributeAuditFilters["deviceId"]["eq"](value) == FilterOutput("deviceId = ?", [value], None)
    ensures !IsDigitString(value) ==>
              DeviceAttributeAuditFilters["deviceId"]["eq"](value) == FilterOutput("", [], Some(BadRequest(DeviceIdMessage)))
    ensures DeviceAttributeAuditFilters["name"]["eq"](value) == FilterOutput("name = ?", [value], None)
  {
  }

  /**
   * The timestamp comparisons use `=`, `>` and `<`, bind the raw value and
   * err exactly when the value is not a calendar date or date-time.
   */
  lemma AuditTimestampFilters(value: string)
    ensures DeviceAttributeAuditFilters["timestamp"]["eq"](value).clause == "timestamp = ?"
    ensures DeviceAttributeAuditFilters["timestamp"]["gt"](value).clause == "timestamp > ?"
    ensures DeviceAttributeAuditFilters["timestamp"]["lt"](value).clause == "timestamp < ?"
    ensures forall op :: op in DeviceAttributeAuditFilters["timestamp"] ==>
              DeviceAttributeAuditFilters["timestamp"][op](value).values == [value]
              && (DeviceAttributeAuditFilters["timestamp"][op](value).err.None?
                  <==> IsCalendarDate(value) || IsCalendarDateTime(value))
  {
    ValidateTimestampAcceptsCalendar(value);
  }

  /** Groups filter on bridge-identifier, id and bridge-key, each with `eq` only. */
  lemma GroupFiltersOffered()
    ensures GroupFilters.Keys == {"bridge-identifier", "id", "bridge-key"}
    ensures forall k :: k in GroupFilters ==> OperatorsOf(GroupFilters, k) == {"eq"}
  {
  }

  /** No group filter checks its value, not even id. */
  lemma GroupFiltersBuild(value: string)
    ensures GroupFilters["bridge-identifier"]["eq"](value) == FilterOutput("bridgeIdentifier = ?", [value], None)
    ensures GroupFilters["id"]["eq"](value) == FilterOutput("id = ?", [value], None)
    ensures GroupFilters["bridge-key"]["eq"](value) == FilterOutput("bridgeKey = ?", [value], None)
  {
  }
}
