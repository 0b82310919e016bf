/**
 * Calendar dates as the script handles them: the ISO 8601 extended calendar
 * date `YYYY-MM-DD` read by `strptime("%Y-%m-%d")`, Python's `date`
 * validity and ordering, and the `DD.MM.YYYY` form the reservation site
 * shows (`format_date_for_ui`).
 */
module Dates {
  import opened Results
  import opened Text

  datatype Date = Date(year: int, month: int, day: int)

  predicate IsLeapYear(y: int) {
    y % 4 == 0 && (y % 100 != 0 || y % 400 == 0)
  }

  function DaysInMonth(y: int, m: int): (n: int)
    requires 1 <= m <= 12
    ensures 28 <= n <= 31
    ensures m == 2 ==> (n == 29 <==> IsLeapYear(y))
  {
    if m == 2 then (if IsLeapYear(y) then 29 else 28)
    else if m == 4 || m == 6 || m == 9 || m == 11 then 30
    else 31
  }

  /** The dates Python's `date` can represent (years 1 to 9999). */
  predicate ValidDate(d: Date) {
    1 <= d.year <= 9999 && 1 <= d.month <= 12 && 1 <= d.day <= DaysInMonth(d.year, d.month)
  }

  /** Python's `date` ordering: by year, then month, then day. */
  predicate Before(a: Date, b: Date) {
    a.year < b.year
    || (a.year == b.year && (a.month < b.month || (a.month == b.month && a.day < b.day)))
  }

  lemma BeforeIsStrictOrder(a: Date, b: Date, c: Date)
    ensures !Before(a, a)
    ensures Before(a, b) ==> !Before(b, a)
    ensures Before(a, b) && Before(b, c) ==> Before(a, c)
    ensures a == b || Before(a, b) || Before(b, a)
  {
  }

  /** `%Y-%m-%d` written out, zero-padded. */
  function FormatIso(d: Date): (s: string)
    requires ValidDate(d)
    ensures |s| == 10 && s[4] == '-' && s[7] == '-'
  {
    Padded(d.year, 4) + "-" + Padded(d.month, 2) + "-" + Padded(d.day, 2)
  }

  predicate IsoShaped(s: string) {
    |s| == 10 && s[4] == '-' && s[7] == '-'
    && IsDigits(s[..4]) && IsDigits(s[5..7]) && IsDigits(s[8..])
  }

  /**
   * `strptime(s, "%Y-%m-%d")` on the zero-padded form: four, two and two
   * digits separated by hyphens, naming a real date. A parsed string is
   * exactly the formatted form of the date it names.
   */
  function ParseIsoDate(s: string): (r: Option<Date>)
    ensures r.Some? ==> ValidDate(r.value) && FormatIso(r.value) == s
  {
    if IsoShaped(s) then
      var d := Date(DigitsValue(s[..4]), DigitsValue(s[5..7]), DigitsValue(s[8..]));
      if ValidDate(d) then
        DigitsPadded(s[..4]);
        DigitsPadded(s[5..7]);
        DigitsPadded(s[8..]);
        assert s == s[..4] + "-" + s[5..7] + "-" + s[8..];
        Some(d)
      else None
    else None
  }

  /** Every valid date survives formatting and parsing. */
  lemma ParseFormatIso(d: Date)
    requires ValidDate(d)
    ensures ParseIsoDate(FormatIso(d)) == Some(d)
  {
    var s := FormatIso(d);
    assert s[..4] == Padded(d.year, 4);
    assert s[5..7] == Padded(d.month, 2);
    assert s[8..] == Padded(d.day, 2);
    PaddedValue(d.year, 4);
    PaddedValue(d.month, 2);
    PaddedValue(d.day, 2);
  }

  datatype DateError = BadDateFormat(text: string)

  /** The site's `%d.%m.%Y` form of a date. */
  function FormatUi(d: Date): (s: string)
    requires ValidDate(d)
    ensures |s| == 10 && s[2] == '.' && s[5] == '.'
  {
    Padded(d.day, 2) + "." + Padded(d.month, 2) + "." + Padded(d.year, 4)
  }

  /** Reads the site's `DD.MM.YYYY` form back into a date. */
  function ParseUiDate(s: string): Option<Date> {
    if |s| == 10 && s[2] == '.' && s[5] == '.'
       && IsDigits(s[..2]) && IsDigits(s[3..5]) && IsDigits(s[6..]) then
      var d := Date(DigitsValue(s[6..]), DigitsValue(s[3..5]), DigitsValue(s[..2]));
      if ValidDate(d) then Some(d) else None
    else None
  }

  /**
   * `format_date_for_ui`: a well-formed `YYYY-MM-DD` becomes `DD.MM.YYYY`,
   * made of the same day, month and year digits; anything else raises.
   * The site's form reads back as the same date.
   */
  function FormatDateForUi(s: string): (r: Result<string, DateError>)
    ensures r.Ok? <==> ParseIsoDate(s).Some?
    ensures r.Ok? ==> r.value == s[8..10] + "." + s[5..7] + "." + s[..4]
    ensures r.Ok? ==> ParseUiDate(r.value) == ParseIsoDate(s)
  {
    match ParseIsoDate(s)
    case None => Err(BadDateFormat(s))
    case Some(d) =>
      var u := FormatUi(d);
      assert s[8..10] == Padded(d.day, 2) && s[5..7] == Padded(d.month, 2) && s[..4] == Padded(d.year, 4);
      assert u[..2] == Padded(d.day, 2) && u[3..5] == Padded(d.month, 2) && u[6..] == Padded(d.year, 4);
      PaddedValue(d.year, 4);
      PaddedValue(d.month, 2);
      PaddedValue(d.day, 2);
      Ok(u)
  }

  /** A worked example. */
  lemma FormatDateForUiExample()
    ensures FormatDateForUi("2026-02-01") == Ok("01.02.2026")
  {
    var d := Date(2026, 2, 1);
    assert FormatIso(d) == "2026-02-01" by {
      assert Padded(2026, 4) == "2026";
      assert Padded(2, 2) == "02";
      assert Padded(1, 2) == "01";
    }
    ParseFormatIso(d);
    assert FormatUi(d) == "01.02.2026";
  }
}
