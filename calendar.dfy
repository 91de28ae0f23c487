/**
 * Calendar dates as the feed writes them: chrono's `%Y%m%d` rendering of a
 * `NaiveDate`, and the parse of an eight-digit `YYYYMMDD` string back into a
 * date of the proleptic Gregorian calendar.
 */
module Calendar {
  import opened Wrappers
  import opened Decimal

  datatype Date = Date(year: int, month: int, day: int)

  predicate IsLeapYear(y: int) {
    (y % 4 == 0 && y % 100 != 0) || y % 400 == 0
  }

  function DaysInMonth(y: int, m: int): (n: int)
    requires 1 <= m <= 12
    ensures 28 <= n <= 31
  {
    if m == 2 then (if IsLeapYear(y) then 29 else 28)
    else if m == 4 || m == 6 || m == 9 || m == 11 then 30
    else 31
  }

  /** A day that exists in the proleptic Gregorian calendar. */
  predicate Valid(d: Date) {
    1 <= d.month <= 12 && 1 <= d.day <= DaysInMonth(d.year, d.month)
  }

  /** A year the feed's `YYYYMMDD` form can carry. */
  predicate FourDigitYear(d: Date) {
    0 <= d.year <= 9999
  }

  /** chrono's `%Y`: the year zero-padded to four digits when it lies in 0..=9999,
      otherwise with an explicit sign in front. */
  function FormatYear(y: int): (s: string)
    ensures 0 <= y <= 9999 ==> |s| == 4 && AllDigits(s) && ValueOf(s) == y
    ensures !(0 <= y <= 9999) ==> |s| > 0 && !IsDigit(s[0])
    ensures y > 9999 ==> s[0] == '+'
    ensures y < 0 ==> s[0] == '-'
  {
    if 0 <= y <= 9999 then FixedDigits(y, 4)
    else
      var sign := if y > 9999 then "+" else "-";
      var magnitude := if y > 9999 then y else -y;
      var s := sign + (if magnitude <= 9999 then FixedDigits(magnitude, 4) else Digits(magnitude));
      assert !IsDigit(s[0]);
      s
  }

  /** `date.format("%Y%m%d")`. */
  function FormatYmd(d: Date): (s: string)
    requires Valid(d)
    ensures FourDigitYear(d) <==> |s| == 8 && AllDigits(s)
  {
    var y, m, dd := FormatYear(d.year), FixedDigits(d.month, 2), FixedDigits(d.day, 2);
    var s := y + m + dd;
    assert s[0] == y[0];
    s
  }

  /** `NaiveDate::parse_from_str(s, "%Y%m%d")` on the feed's form: eight ASCII digits
      that name a day of the calendar. */
  function ParseYmd(s: string): (r: Option<Date>)
    ensures r.Some? ==> Valid(r.value) && FourDigitYear(r.value)
  {
    if |s| == 8 && AllDigits(s) then
      var y, m, d := s[..4], s[4..6], s[6..];
      assert AllDigits(y) && AllDigits(m) && AllDigits(d);
      ValueOfBound(y);
      var date := Date(ValueOf(y), ValueOf(m), ValueOf(d));
      if Valid(date) then Some(date) else None
    else None
  }

  /** Round trip: parsing the rendering of a valid date with a four-digit year gives it back. */
  lemma {:induction false} ParseFormat(d: Date)
    requires Valid(d) && FourDigitYear(d)
    ensures ParseYmd(FormatYmd(d)) == Some(d)
  {
    var y, m, dd := FixedDigits(d.year, 4), FixedDigits(d.month, 2), FixedDigits(d.day, 2);
    var s := FormatYmd(d);
    assert s == y + m + dd;
    assert s[..4] == y && s[4..6] == m && s[6..] == dd;
    assert Pow10(2) == 100 && Pow10(4) == 10000;
  }

  /** Only the canonical rendering parses: an accepted string is the rendering of its date. */
  lemma {:induction false} FormatParse(s: string)
    requires ParseYmd(s).Some?
    ensures FormatYmd(ParseYmd(s).value) == s
  {
    var y, m, d := s[..4], s[4..6], s[6..];
    var date := ParseYmd(s).value;
    assert AllDigits(y) && AllDigits(m) && AllDigits(d);
    assert date == Date(ValueOf(y), ValueOf(m), ValueOf(d));
    assert s == y + m + d;
    assert FormatYmd(date) == FormatYear(date.year) + FixedDigits(date.month, 2) + FixedDigits(date.day, 2);
    assert FormatYear(date.year) == y by {
      FourDigitsOfValue(y);
    }
    assert FixedDigits(date.month, 2) == m by {
      FixedDigitsOfValue(m);
    }
    assert FixedDigits(date.day, 2) == d by {
      FixedDigitsOfValue(d);
    }
  }

  lemma FourDigitsOfValue(y: string)
    requires |y| == 4 && AllDigits(y)
    ensures FormatYear(ValueOf(y)) == y
  {
    ValueOfBound(y);
    assert Pow10(4) == 10000;
    FixedDigitsOfValue(y);
  }

  /** `parse_date` accepts a string exactly when it is the `YYYYMMDD` rendering of a
      valid date with a four-digit year. */
  lemma ParseYmdExactly(s: string)
    ensures ParseYmd(s).Some? <==> exists d :: Valid(d) && FourDigitYear(d) && FormatYmd(d) == s
  {
    if ParseYmd(s).Some? {
      FormatParse(s);
    }
    if d :| Valid(d) && FourDigitYear(d) && FormatYmd(d) == s {
      ParseFormat(d);
    }
  }
}
