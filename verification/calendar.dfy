/**
 * The site's month date picker: reading the label it shows
 * (`parse_calendar_period`) and stepping it one month at a time towards a
 * target month (`ensure_calendar_month`).
 */
module Calendar {
  import opened Results
  import opened Text
  import opened Dates

  /** A (year, month) pair as the picker displays it. */
  datatype Period = Period(year: int, month: int)

  datatype CalendarError =
    | UnrecognizedLabel(text: string)
    | BadTargetDate(text: string)
    | NavigationExhausted

  /** The Italian half of the script's month-name table. */
  function ItalianMonth(name: string): (m: Option<int>)
    ensures m.Some? ==> 1 <= m.value <= 12
  {
    if name == "gennaio" then Some(1) else if name == "febbraio" then Some(2)
    else if name == "marzo" then Some(3) else if name == "aprile" then Some(4)
    else if name == "maggio" then Some(5) else if name == "giugno" then Some(6)
    else if name == "luglio" then Some(7) else if name == "agosto" then Some(8)
    else if name == "settembre" then Some(9) else if name == "ottobre" then Some(10)
    else if name == "novembre" then Some(11) else if name == "dicembre" then Some(12)
    else None
  }

  /** The English half of the script's month-name table. */
  function EnglishMonth(name: string): (m: Option<int>)
    ensures m.Some? ==> 1 <= m.value <= 12
  {
    if name == "january" then Some(1) else if name == "february" then Some(2)
    else if name == "march" then Some(3) else if name == "april" then Some(4)
    else if name == "may" then Some(5) else if name == "june" then Some(6)
    else if name == "july" then Some(7) else if name == "august" then Some(8)
    else if name == "september" then Some(9) else if name == "october" then Some(10)
    else if name == "november" then Some(11) else if name == "december" then Some(12)
    else None
  }

  /** The month a lower-case Italian or English month name denotes. */
  function MonthNumber(name: string): (m: Option<int>)
    ensures m.Some? ==> 1 <= m.value <= 12
    ensures m.Some? <==> ItalianMonth(name).Some? || EnglishMonth(name).Some?
  {
    if ItalianMonth(name).Some? then ItalianMonth(name) else EnglishMonth(name)
  }

  predicate IsLowerLetter(c: char) { 'a' <= c <= 'z' }

  /** Every Italian month name is at least three lower-case letters. */
  lemma ItalianMonthShape(n: string)
    requires ItalianMonth(n).Some?
    ensures |n| >= 3 && forall i :: 0 <= i < |n| ==> IsLowerLetter(n[i])
  {
  }

  /** Every English month name is at least three lower-case letters. */
  lemma EnglishMonthShape(n: string)
    requires EnglishMonth(n).Some?
    ensures |n| >= 3 && forall i :: 0 <= i < |n| ==> IsLowerLetter(n[i])
  {
  }

  lemma MonthNameShape(n: string)
    requires MonthNumber(n).Some?
    ensures |n| >= 3 && forall i :: 0 <= i < |n| ==> IsLowerLetter(n[i])
  {
    if ItalianMonth(n).Some? {
      ItalianMonthShape(n);
    } else {
      EnglishMonthShape(n);
    }
  }

  /** Both languages give the same number; shortened names are not recognised. */
  lemma MonthNumberExamples()
    ensures MonthNumber("febbraio") == Some(2) && MonthNumber("february") == Some(2)
    ensures MonthNumber("dicembre") == Some(12) && MonthNumber("may") == Some(5)
    ensures MonthNumber("feb") == None
  {
  }

  /** The whole label matches `^(\d{2})/(\d{4})$`. */
  predicate NumericLabel(v: string) {
    |v| == 7 && IsDigits(v[..2]) && v[2] == '/' && IsDigits(v[3..])
  }

  /**
   * `parse_calendar_period`: after trimming and lower-casing, `MM/YYYY`
   * gives (year, month) in swapped order (the month is not range-checked),
   * `<month name> <digits>` gives (digits, month number), anything else
   * raises.
   */
  function ParseCalendarPeriod(text: string): (r: Result<Period, CalendarError>)
    ensures r.Err? ==> r.error == UnrecognizedLabel(text)
    ensures r.Ok? ==> 0 <= r.value.year && 0 <= r.value.month <= 99
    ensures r.Ok? && !NumericLabel(Lower(Strip(text))) ==> 1 <= r.value.month <= 12
  {
    var value := Lower(Strip(text));
    if NumericLabel(value) then
      DigitsPadded(value[..2]);
      Ok(Period(DigitsValue(value[3..]), DigitsValue(value[..2])))
    else
      var parts := Words(value);
      if |parts| == 2 && MonthNumber(parts[0]).Some? && IsDigits(parts[1]) then
        Ok(Period(DigitsValue(parts[1]), MonthNumber(parts[0]).value))
      else
        Err(UnrecognizedLabel(text))
  }

  lemma NumericValueParses(text: string)
    requires Lower(Strip(text)) == text && NumericLabel(text)
    ensures ParseCalendarPeriod(text) == Ok(Period(DigitsValue(text[3..]), DigitsValue(text[..2])))
  {
  }

  lemma NamedValueParses(text: string, name: string, digits: string)
    requires !NumericLabel(Lower(Strip(text)))
    requires Words(Lower(Strip(text))) == [name, digits]
    requires MonthNumber(name).Some? && IsDigits(digits)
    ensures ParseCalendarPeriod(text) == Ok(Period(DigitsValue(digits), MonthNumber(name).value))
  {
  }

  /** A numeric label `MM/YYYY` reads as (YYYY, MM), whatever the two digits are. */
  lemma NumericLabelRoundTrip(year: nat, month: nat)
    requires year < 10000 && month < 100
    ensures ParseCalendarPeriod(Padded(month, 2) + "/" + Padded(year, 4)) == Ok(Period(year, month))
  {
    var s := Padded(month, 2) + "/" + Padded(year, 4);
    assert s[..2] == Padded(month, 2) && s[3..] == Padded(year, 4);
    assert !IsSpace(s[0]) && !IsSpace(s[6]) && NoUpper(s);
    StripUnpadded(s);
    LowerOfNoUpper(s);
    NumericValueParses(s);
    PaddedValue(month, 2);
    PaddedValue(year, 4);
  }

  /** Stripping and lower-casing a named label leaves `<name> <blanks> <digits>`. */
  lemma NamedLabelValue(pre: string, name: string, sep: string, digits: string, post: string)
    requires AllSpace(pre) && AllSpace(sep) && AllSpace(post)
    requires name != [] && !IsSpace(name[0]) && IsDigits(digits)
    ensures Lower(Strip(pre + name + sep + digits + post)) == Lower(name) + sep + digits
  {
    var core := name + sep + digits;
    assert core[0] == name[0] && core[|core| - 1] == digits[|digits| - 1];
    assert pre + name + sep + digits + post == pre + core + post;
    StripPadded(pre, core, post);
    LowerNameTail(name, sep, digits);
  }

  /** Lower-casing leaves blanks and digits alone. */
  lemma LowerNameTail(name: string, sep: string, digits: string)
    requires AllSpace(sep) && IsDigits(digits)
    ensures Lower(name + sep + digits) == Lower(name) + sep + digits
  {
    assert name + sep + digits == name + (sep + digits);
    LowerConcat(name, sep + digits);
    LowerConcat(sep, digits);
    assert NoUpper(sep) && NoUpper(digits);
    LowerOfNoUpper(sep);
    LowerOfNoUpper(digits);
  }

  /** A month name, blanks and digits split into the name and the digits. */
  lemma NamedValueWords(n: string, sep: string, digits: string)
    requires |n| >= 3 && forall i :: 0 <= i < |n| ==> IsLowerLetter(n[i])
    requires AllSpace(sep) && sep != [] && IsDigits(digits)
    ensures Words(n + sep + digits) == [n, digits]
  {
    assert NoSpace(n);
    TwoWords(n, sep, digits);
  }

  /** A label that starts with a month name is not numeric. */
  lemma NamedValueNotNumeric(n: string, sep: string, digits: string)
    requires |n| >= 3 && forall i :: 0 <= i < |n| ==> IsLowerLetter(n[i])
    ensures !NumericLabel(n + sep + digits)
  {
    assert (n + sep + digits)[2] == n[2];
  }

  lemma NameStartsWithLetter(name: string)
    requires MonthNumber(Lower(name)).Some?
    ensures name != [] && !IsSpace(name[0])
  {
    MonthNameShape(Lower(name));
    assert Lower(name)[0] == LowerChar(name[0]);
  }

  lemma NamedLabelStripped(pre: string, name: string, sep: string, digits: string, post: string)
    requires AllSpace(pre) && AllSpace(sep) && AllSpace(post)
    requires MonthNumber(Lower(name)).Some? && IsDigits(digits)
    ensures Lower(Strip(pre + name + sep + digits + post)) == Lower(name) + sep + digits
  {
    NameStartsWithLetter(name);
    NamedLabelValue(pre, name, sep, digits, post);
  }

  /**
   * A month name in any letter case, a run of blanks and a digit string,
   * with blanks around them, reads as (the digits' value, that month).
   */
  lemma NamedLabelRoundTrip(pre: string, name: string, sep: string, digits: string, post: string)
    requires AllSpace(pre) && AllSpace(sep) && AllSpace(post) && sep != []
    requires MonthNumber(Lower(name)).Some? && IsDigits(digits)
    ensures ParseCalendarPeriod(pre + name + sep + digits + post)
            == Ok(Period(DigitsValue(digits), MonthNumber(Lower(name)).value))
  {
    NamedLabelStripped(pre, name, sep, digits, post);
    MonthNameShape(Lower(name));
    NamedValueWords(Lower(name), sep, digits);
    NamedValueNotNumeric(Lower(name), sep, digits);
    NamedValueParses(pre + name + sep + digits + post, Lower(name), digits);
  }

  /** A trimmed, lower-cased label of the form `<month name> <blanks> <digits>`. */
  predicate NamedLabel(v: string, name: string, sep: string, digits: string) {
    MonthNumber(name).Some? && AllSpace(sep) && sep != [] && IsDigits(digits)
    && v == name + sep + digits
  }

  /** Trimming and lower-casing leave no whitespace at either end. */
  lemma LabelValueEdges(text: string)
    ensures var v := Lower(Strip(text)); v == [] || (!IsSpace(v[0]) && !IsSpace(v[|v| - 1]))
  {
  }

  /**
   * The converse of the two round trips: every label the script accepts
   * is, once trimmed and lower-cased, either `MM/YYYY` read as (YYYY, MM)
   * or a month name, blanks and digits read as (digits, month); every
   * other label raises.
   */
  lemma AcceptedLabelForms(text: string)
    requires ParseCalendarPeriod(text).Ok?
    ensures var v := Lower(Strip(text)); var p := ParseCalendarPeriod(text).value;
      || (NumericLabel(v) && p == Period(DigitsValue(v[3..]), DigitsValue(v[..2])))
      || (exists name, sep, digits :: NamedLabel(v, name, sep, digits)
            && p == Period(DigitsValue(digits), MonthNumber(name).value))
  {
    var v := Lower(Strip(text));
    if !NumericLabel(v) {
      var parts := Words(v);
      LabelValueEdges(text);
      var sep := TwoWordsJoined(v);
      assert NamedLabel(v, parts[0], sep, parts[1]);
    }
  }

  /** Months counted from year 0: one step per click of the picker. */
  function MonthIndex(year: int, month: int): int {
    12 * year + (month - 1)
  }

  /**
   * For real months, comparing (year, month) pairs lexicographically, as
   * the script does, is comparing their month indexes; equal indexes mean
   * equal pairs.
   */
  lemma LexicographicIsIndexOrder(y1: int, m1: int, y2: int, m2: int)
    requires 1 <= m1 <= 12 && 1 <= m2 <= 12
    ensures (y1 < y2 || (y1 == y2 && m1 < m2)) <==> MonthIndex(y1, m1) < MonthIndex(y2, m2)
    ensures (y1 == y2 && m1 == m2) <==> MonthIndex(y1, m1) == MonthIndex(y2, m2)
  {
  }

  datatype Click = NextMonth | PreviousMonth

  function Repeat(c: Click, n: nat): (s: seq<Click>)
    ensures |s| == n
    ensures forall i :: 0 <= i < n ==> s[i] == c
  {
    if n == 0 then [] else Repeat(c, n - 1) + [c]
  }

  function Abs(x: int): nat {
    if x < 0 then -x else x
  }

  /** The open picker: the month it displays and the clicks made on it so far. */
  class DatePicker {
    var year: int
    var month: int
    var clicks: seq<Click>

    ghost predicate Valid()
      reads this
    {
      1 <= month <= 12
    }

    function Shown(): int
      reads this
    {
      MonthIndex(year, month)
    }

    constructor (year: int, month: int)
      requires 1 <= month <= 12
      ensures Valid() && this.year == year && this.month == month && clicks == []
    {
      this.year := year;
      this.month := month;
      clicks := [];
    }

    /** The "next month" button. */
    method ClickNext()
      requires Valid()
      modifies this
      ensures Valid() && Shown() == old(Shown()) + 1
      ensures clicks == old(clicks) + [NextMonth]
    {
      if month == 12 {
        year, month := year + 1, 1;
      } else {
        month := month + 1;
      }
      clicks := clicks + [NextMonth];
    }

    /** The "previous month" button. */
    method ClickPrevious()
      requires Valid()
      modifies this
      ensures Valid() && Shown() == old(Shown()) - 1
      ensures clicks == old(clicks) + [PreviousMonth]
    {
      if month == 1 {
        year, month := year - 1, 12;
      } else {
        month := month - 1;
      }
      clicks := clicks + [PreviousMonth];
    }

    /**
     * `ensure_calendar_month`: up to 24 rounds of "compare, then click
     * towards the target". A target d months away is reached with exactly
     * |d| clicks when |d| < 24; otherwise 24 clicks are made and it raises,
     * even when the 24th click lands on the target, because the comparison
     * comes before each click and none follows the last one.
     */
    method EnsureMonth(targetDate: string) returns (r: Result<Period, CalendarError>)
      requires Valid()
      modifies this
      ensures Valid()
      ensures ParseIsoDate(targetDate).None? ==>
        r == Err(BadTargetDate(targetDate)) && clicks == old(clicks) && Shown() == old(Shown())
      ensures ParseIsoDate(targetDate).Some? ==>
        var t := ParseIsoDate(targetDate).value;
        var d := MonthIndex(t.year, t.month) - old(Shown());
        var dir := if d > 0 then NextMonth else PreviousMonth;
        && (Abs(d) < 24 ==>
              r == Ok(Period(t.year, t.month)) && year == t.year && month == t.month
              && clicks == old(clicks) + Repeat(dir, Abs(d)))
        && (Abs(d) >= 24 ==>
              r == Err(NavigationExhausted) && Shown() == old(Shown()) + (if d > 0 then 24 else -24)
              && clicks == old(clicks) + Repeat(dir, 24))
    {
      var parsed := ParseIsoDate(targetDate);
      if parsed.None? {
        return Err(BadTargetDate(targetDate));
      }
      var t := parsed.value;
      ghost var start := Shown();
      ghost var d := MonthIndex(t.year, t.month) - start;
      ghost var dir := if d > 0 then NextMonth else PreviousMonth;
      for k := 0 to 24
        invariant Valid()
        invariant k <= Abs(d)
        invariant Shown() == start + (if d > 0 then k else -k)
        invariant clicks == old(clicks) + Repeat(dir, k)
      {
        LexicographicIsIndexOrder(year, month, t.year, t.month);
        if year == t.year && month == t.month {
          return Ok(Period(t.year, t.month));
        }
        if year < t.year || (year == t.year && month < t.month) {
          ClickNext();
        } else {
          ClickPrevious();
        }
      }
      return Err(NavigationExhausted);
    }
  }

  /** The stepper scenarios: three clicks forward, six clicks back. */
  method StepperScenarios() {
    var picker := new DatePicker(2026, 1);
    ParseFormatIso(Date(2026, 4, 15));
    var r := picker.EnsureMonth(FormatIso(Date(2026, 4, 15)));
    assert r.Ok? && picker.clicks == [NextMonth, NextMonth, NextMonth];

    picker := new DatePicker(2026, 6);
    ParseFormatIso(Date(2025, 12, 1));
    r := picker.EnsureMonth(FormatIso(Date(2025, 12, 1)));
    assert r.Ok? && picker.clicks == Repeat(PreviousMonth, 6);
  }
}
