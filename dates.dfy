/** Date normalisation (`_format_date`, identical in both generator scripts) and
    date validation (`_is_valid_date` in the server). Both try the `strptime`
    patterns `%Y-%m-%d`, `%m/%d/%Y` and `%m/%d/%y` in that order; the generator
    renders a recognised date with `strftime("%m/%d/%Y")`. */
module Dates {
  import opened Text
  import opened Values

  datatype Date = Date(year: int, month: int, day: int)

  /** The three accepted patterns, in the order they are tried. */
  datatype Pattern = YearDashMonthDashDay | MonthSlashDaySlashYear | MonthSlashDaySlashShortYear

  predicate IsLeapYear(year: int)
  {
    year % 4 == 0 && (year % 100 != 0 || year % 400 == 0)
  }

  function DaysInMonth(year: int, month: int): int
    requires 1 <= month <= 12
  {
    if month == 2 then (if IsLeapYear(year) then 29 else 28)
    else if month == 4 || month == 6 || month == 9 || month == 11 then 30
    else 31
  }

  /** What Python's `datetime.date` accepts: years 1 to 9999 and a day that exists in its month. */
  predicate IsCalendarDate(d: Date)
  {
    1 <= d.year <= 9999 && 1 <= d.month <= 12 && 1 <= d.day <= DaysInMonth(d.year, d.month)
  }

  predicate IsNonZeroDigit(c: char)
  {
    '1' <= c <= '9'
  }

  /** `%m` matching all of `t`: the alternatives `1[0-2]`, `0[1-9]`, `[1-9]`. */
  function MonthField(t: string): (r: Option<int>)
    ensures r.Some? ==> 1 <= r.value <= 12
  {
    if |t| == 2 && t[0] == '1' && '0' <= t[1] <= '2' then Some(10 + DigitValue(t[1]))
    else if |t| == 2 && t[0] == '0' && IsNonZeroDigit(t[1]) then Some(DigitValue(t[1]))
    else if |t| == 1 && IsNonZeroDigit(t[0]) then Some(DigitValue(t[0]))
    else None
  }

  /** `%d` matching all of `t`: the alternatives `3[01]`, `[12]\d`, `0[1-9]`, `[1-9]` and
      ` [1-9]` (a blank before a single digit, which `int()` then ignores). */
  function DayField(t: string): (r: Option<int>)
    ensures r.Some? ==> 1 <= r.value <= 31
  {
    if |t| == 2 && t[0] == '3' && (t[1] == '0' || t[1] == '1') then Some(30 + DigitValue(t[1]))
    else if |t| == 2 && (t[0] == '1' || t[0] == '2') && IsDigit(t[1]) then Some(DigitValue(t[0]) * 10 + DigitValue(t[1]))
    else if |t| == 2 && t[0] == '0' && IsNonZeroDigit(t[1]) then Some(DigitValue(t[1]))
    else if |t| == 1 && IsNonZeroDigit(t[0]) then Some(DigitValue(t[0]))
    else if |t| == 2 && t[0] == ' ' && IsNonZeroDigit(t[1]) then Some(DigitValue(t[1]))
    else None
  }

  /** `%Y` (`\d\d\d\d`, n = 4) and `%y` (`\d\d`, n = 2) matching all of `t`. */
  function NumberField(t: string, n: nat): (r: Option<int>)
    ensures r.Some? ==> |t| == n && AllDigits(t) && r.value == ParseDigits(t)
  {
    if |t| == n && AllDigits(t) then Some(ParseDigits(t)) else None
  }

  /** `%y` maps 00..68 to 2000..2068 and 69..99 to 1969..1999. */
  function ShortYear(yy: Option<int>): Option<int>
  {
    match yy
    case None => None
    case Some(v) => Some(if v <= 68 then 2000 + v else 1900 + v)
  }

  /** Splits `s` at the separator `sep` that follows a one- or two-character month or
      day field. Every two-character alternative of those fields has a digit in second
      place, so where `sep` stands decides which alternative the regular expression took. */
  function SplitAfterField(s: string, sep: char): (r: Option<(string, string)>)
    ensures r.Some? ==> s == r.value.0 + [sep] + r.value.1
  {
    if |s| >= 2 && s[1] == sep then Some((s[..1], s[2..]))
    else if |s| >= 3 && s[2] == sep then Some((s[..2], s[3..]))
    else None
  }

  function Combine(year: Option<int>, month: Option<int>, day: Option<int>): (r: Option<Date>)
    ensures r.Some? ==> IsCalendarDate(r.value)
  {
    if year.Some? && month.Some? && day.Some? && IsCalendarDate(Date(year.value, month.value, day.value))
    then Some(Date(year.value, month.value, day.value))
    else None
  }

  /** `strptime(s, pattern)`: the whole of `s` must match (no unconverted data may remain)
      and the fields must form a real date. */
  function ParseWith(p: Pattern, s: string): (r: Option<Date>)
    ensures r.Some? ==> IsCalendarDate(r.value)
  {
    match p
    case YearDashMonthDashDay =>
      if |s| >= 5 && s[4] == '-' then
        (match SplitAfterField(s[5..], '-')
         case Some((m, d)) => Combine(NumberField(s[..4], 4), MonthField(m), DayField(d))
         case None => None)
      else None
    case MonthSlashDaySlashYear =>
      (match SplitAfterField(s, '/')
       case None => None
       case Some((m, rest)) =>
         (match SplitAfterField(rest, '/')
          case None => None
          case Some((d, y)) => Combine(NumberField(y, 4), MonthField(m), DayField(d))))
    case MonthSlashDaySlashShortYear =>
      (match SplitAfterField(s, '/')
       case None => None
       case Some((m, rest)) =>
         (match SplitAfterField(rest, '/')
          case None => None
          case Some((d, y)) => Combine(ShortYear(NumberField(y, 2)), MonthField(m), DayField(d))))
  }

  /** The first of the three patterns, in order, that accepts `s`. */
  function ParseAny(s: string): (r: Option<Date>)
    ensures r.Some? ==> IsCalendarDate(r.value)
  {
    var iso := ParseWith(YearDashMonthDashDay, s);
    if iso.Some? then iso
    else
      var long := ParseWith(MonthSlashDaySlashYear, s);
      if long.Some? then long else ParseWith(MonthSlashDaySlashShortYear, s)
  }

  /** `strftime("%m/%d/%Y")`. */
  function Render(d: Date): (r: string)
    requires IsCalendarDate(d)
    ensures IsCanonical(r)
  {
    Pad2(d.month) + "/" + Pad2(d.day) + "/" + Pad4(d.year)
  }

  /** The shape of every rendered date: `MM/DD/YYYY`. */
  predicate IsCanonical(s: string)
  {
    |s| == 10 && s[2] == '/' && s[5] == '/'
    && AllDigits(s[..2]) && AllDigits(s[3..5]) && AllDigits(s[6..])
  }

  /** `_format_date`: blank gives "", a recognised date is rendered `MM/DD/YYYY`, and
      anything else comes back stripped but otherwise unchanged. */
  function FormatDate(value: string): (r: string)
    ensures r == [] <==> Trim(value) == []
    ensures r != Trim(value) ==> IsCanonical(r)
  {
    var v := Trim(value);
    if v == [] then []
    else
      match ParseAny(v)
      case Some(d) => Render(d)
      case None => v
  }

  /** `_is_valid_date`: blank counts as valid, otherwise one of the patterns must accept it. */
  predicate IsValidDate(value: string)
  {
    var v := Trim(value);
    v == [] || ParseAny(v).Some?
  }

  // ---------------------------------------------------------------------
  // Properties

  lemma MonthFieldOfPad2(m: int)
    requires 1 <= m <= 12
    ensures MonthField(Pad2(m)) == Some(m)
  {
  }

  lemma DayFieldOfPad2(d: int)
    requires 1 <= d <= 31
    ensures DayField(Pad2(d)) == Some(d)
  {
  }

  /** A rendered date reads back as the same date: the `%Y-%m-%d` pattern rejects it
      (a slash stands where a year digit must be) and `%m/%d/%Y` accepts it. */
  lemma {:induction false} RenderRoundTrip(d: Date)
    requires IsCalendarDate(d)
    ensures ParseAny(Render(d)) == Some(d)
  {
    var s := Render(d);
    var mm, dd, yyyy := Pad2(d.month), Pad2(d.day), Pad4(d.year);
    assert s == mm + "/" + dd + "/" + yyyy;
    assert !IsDigit(s[..4][2]);
    assert ParseWith(YearDashMonthDashDay, s) == None;
    assert s[2] == '/' && s[..2] == mm && s[3..] == dd + "/" + yyyy;
    assert SplitAfterField(s, '/') == Some((mm, s[3..]));
    var rest := s[3..];
    assert rest[2] == '/' && rest[..2] == dd && rest[3..] == yyyy;
    assert SplitAfterField(rest, '/') == Some((dd, yyyy));
    MonthFieldOfPad2(d.month);
    DayFieldOfPad2(d.day);
    ParsePad4(d.year);
  }

  /** A rendered date is its own normal form. */
  lemma {:induction false} FormatRendered(d: Date)
    requires IsCalendarDate(d)
    ensures FormatDate(Render(d)) == Render(d)
  {
    var r := Render(d);
    TrimOfTrimmed(r);
    RenderRoundTrip(d);
  }

  /** A normalised date has no whitespace at either end. */
  lemma FormatDateIsTrimmed(value: string)
    ensures Trim(FormatDate(value)) == FormatDate(value)
  {
    TrimIdempotent(value);
    var r := FormatDate(value);
    if r != Trim(value) {
      CanonicalIsTrimmed(r);
    }
  }

  lemma CanonicalIsTrimmed(r: string)
    requires IsCanonical(r)
    ensures Trim(r) == r
  {
    assert !IsSpace(r[0]) && !IsSpace(r[9]) by { assert IsDigit(r[..2][0]) && IsDigit(r[6..][3]); }
    TrimOfTrimmed(r);
  }

  /** Normalising a date twice gives the same text as normalising it once. */
  lemma {:induction false} FormatDateIdempotent(value: string)
    ensures FormatDate(FormatDate(value)) == FormatDate(value)
  {
    var v := Trim(value);
    TrimIdempotent(value);
    if v != [] {
      var p := ParseAny(v);
      if p.Some? {
        assert FormatDate(value) == Render(p.value);
        FormatRendered(p.value);
      } else {
        assert FormatDate(value) == v;
      }
    }
  }

  /** The printed date is the date the input names: a recognised date is re-rendered
      as a string that parses back to that same date, and an unrecognised value is
      only stripped. */
  lemma FormatDateKeepsDate(value: string)
    ensures ParseAny(Trim(value)).Some? ==> ParseAny(FormatDate(value)) == ParseAny(Trim(value))
    ensures ParseAny(Trim(value)).None? ==> FormatDate(value) == Trim(value)
  {
    if ParseAny(Trim(value)).Some? {
      RenderRoundTrip(ParseAny(Trim(value)).value);
    }
  }

  /** The date the generator prints agrees with what the server's validator says:
      a date the validator accepts comes out blank or as `MM/DD/YYYY` and reads back,
      and one it warns about is passed through, only stripped. */
  lemma {:induction false} ValidationAgreesWithFormatting(value: string)
    ensures IsValidDate(value) ==> FormatDate(value) == [] || (IsCanonical(FormatDate(value)) && ParseAny(FormatDate(value)).Some?)
    ensures !IsValidDate(value) ==> FormatDate(value) == Trim(value) && Trim(value) != []
  {
    var v := Trim(value);
    if v != [] {
      match ParseAny(v)
      case Some(d) => RenderRoundTrip(d);
      case None =>
    }
  }

  /** The worked example: an ISO date is shown in US order with a four-digit year. */
  lemma IsoExample()
    ensures FormatDate("2024-05-01") == "05/01/2024"
  {
    var s := "2024-05-01";
    var d := Date(2024, 5, 1);
    assert Trim(s) == s by { TrimOfTrimmed(s); }
    IsoExampleParses();
    IsoExampleRenders();
  }

  lemma IsoExampleParses()
    ensures ParseAny("2024-05-01") == Some(Date(2024, 5, 1))
  {
    var s := "2024-05-01";
    assert NumberField(s[..4], 4) == Some(2024) by {
      assert s[..4] == "2024";
      assert "2024"[..3] == "202" && "202"[..2] == "20" && "20"[..1] == "2" && "2"[..0] == "";
    }
    assert SplitAfterField(s[5..], '-') == Some(("05", "01")) by {
      var rest := s[5..];
      assert rest[1] != '-' && rest[2] == '-';
      assert rest[..2] == "05" && rest[3..] == "01";
    }
    assert MonthField("05") == Some(5);
    assert DayField("01") == Some(1);
  }

  lemma IsoExampleRenders()
    ensures Render(Date(2024, 5, 1)) == "05/01/2024"
  {
    assert Pad2(5) == "05" && Pad2(1) == "01" && Pad4(2024) == "2024";
  }
}
