/**
 * The column type `create_supabase_table` infers from one sample value: `determine_field_type`
 * and the date test `is_date_string` it relies on.
 *
 * `datetime.strptime` is modelled on ASCII digits: every numeric directive takes the whole run
 * of digits in front of it (its regular expression can take nothing else, since each is
 * followed by a separator or the end of the text), `%d %m %H %M` accept one or two digits in
 * their range, `%Y` exactly four, and the date must exist (`datetime` rejects the 30th of
 * February, the 29th of February outside leap years, and year 0).
 */
module FieldTypes {
  import opened Wrappers
  import opened PyStr
  import opened PlanfixXml

  datatype SqlType = Text | Integer | Numeric | Timestamp | Boolean

  /** The name the type has in the generated SQL. */
  function TypeName(t: SqlType): string {
    match t
    case Text => "TEXT"
    case Integer => "INTEGER"
    case Numeric => "NUMERIC"
    case Timestamp => "TIMESTAMP"
    case Boolean => "BOOLEAN"
  }

  // ---------------------------------------------------------------------------------------
  // is_date_string

  datatype Directive = Day | Month | Year | Hour | Minute | Lit(c: char)

  /** The five formats, in the order they are tried. */
  const DateFormats: seq<seq<Directive>> := [
    [Day, Lit('-'), Month, Lit('-'), Year, Lit(' '), Hour, Lit(':'), Minute],
    [Day, Lit('-'), Month, Lit('-'), Year],
    [Year, Lit('-'), Month, Lit('-'), Day],
    [Day, Lit('.'), Month, Lit('.'), Year],
    [Day, Lit('/'), Month, Lit('/'), Year]]

  /** The date `strptime` fills in; it starts at 1900-01-01. */
  datatype DateFields = DateFields(day: nat, month: nat, year: nat)

  /** Length of the run of digits at the start of `s`. */
  function DigitRun(s: string): (n: nat)
    ensures n <= |s| && AllDigits(s[..n])
    ensures n < |s| ==> !IsDigit(s[n])
    decreases |s|
  {
    if s != [] && IsDigit(s[0]) then
      var n := 1 + DigitRun(s[1..]);
      assert forall i :: 0 < i < n ==> s[..n][i] == s[1..][..n - 1][i - 1];
      n
    else 0
  }

  /** The digits a numeric directive accepts. */
  predicate Accepts(d: Directive, digits: string)
    requires AllDigits(digits)
  {
    match d
    case Day => 1 <= |digits| <= 2 && 1 <= DigitsValue(digits) <= 31
    case Month => 1 <= |digits| <= 2 && 1 <= DigitsValue(digits) <= 12
    case Hour => 1 <= |digits| <= 2 && DigitsValue(digits) <= 23
    case Minute => 1 <= |digits| <= 2 && DigitsValue(digits) <= 59
    case Year => |digits| == 4
    case Lit(_) => false
  }

  function Store(f: DateFields, d: Directive, v: nat): DateFields {
    match d
    case Day => f.(day := v)
    case Month => f.(month := v)
    case Year => f.(year := v)
    case _ => f
  }

  /** Matches the whole of `s` against `fmt`, filling in `f`. */
  function Scan(fmt: seq<Directive>, s: string, f: DateFields): Option<DateFields>
    decreases |fmt|
  {
    if fmt == [] then (if s == [] then Some(f) else None)
    else match fmt[0]
      case Lit(c) => if |s| > 0 && s[0] == c then Scan(fmt[1..], s[1..], f) else None
      case d =>
        var n := DigitRun(s);
        if Accepts(d, s[..n]) then Scan(fmt[1..], s[n..], Store(f, d, DigitsValue(s[..n]))) else None
  }

  predicate IsLeapYear(y: nat) { y % 4 == 0 && (y % 100 != 0 || y % 400 == 0) }

  function DaysInMonth(m: nat, y: nat): nat {
    if m == 2 then (if IsLeapYear(y) then 29 else 28)
    else if m == 4 || m == 6 || m == 9 || m == 11 then 30
    else 31
  }

  /** A day `datetime` can represent. */
  predicate IsValidDate(f: DateFields) {
    1 <= f.year && 1 <= f.month <= 12 && 1 <= f.day <= DaysInMonth(f.month, f.year)
  }

  /** `datetime.strptime(value, fmt)` succeeds. */
  predicate Parses(value: string, fmt: seq<Directive>) {
    var r := Scan(fmt, value, DateFields(1, 1, 1900));
    r.Some? && IsValidDate(r.value)
  }

  /** The search over the formats from the `i`-th on. */
  function ParsesFrom(value: string, i: nat): (b: bool)
    requires i <= |DateFormats|
    ensures b <==> exists j :: i <= j < |DateFormats| && Parses(value, DateFormats[j])
    decreases |DateFormats| - i
  {
    if i == |DateFormats| then false
    else if Parses(value, DateFormats[i]) then true
    else ParsesFrom(value, i + 1)
  }

  /** `is_date_string`: some format parses the value. */
  predicate IsDateString(value: string) { ParsesFrom(value, 0) }

  /** Every format begins with a number, so a text not starting with a digit is no date. */
  lemma NoLeadingDigitNoDate(v: string)
    requires v == [] || !IsDigit(v[0])
    ensures !IsDateString(v)
  {
    forall j | 0 <= j < |DateFormats| ensures !Parses(v, DateFormats[j]) {
      var fmt := DateFormats[j];
      assert fmt[0] == Day || fmt[0] == Year;
      assert DigitRun(v) == 0;
    }
  }

  lemma {:induction false} DigitRunOf(digits: string, rest: string)
    requires AllDigits(digits) && (rest == [] || !IsDigit(rest[0]))
    ensures DigitRun(digits + rest) == |digits|
    decreases |digits|
  {
    if digits == [] {
      assert digits + rest == rest;
    } else {
      assert (digits + rest)[1..] == digits[1..] + rest;
      DigitRunOf(digits[1..], rest);
    }
  }

  /** A numeric directive takes the whole run of digits in front of it. */
  lemma ScanNumber(fmt: seq<Directive>, digits: string, rest: string, f: DateFields)
    requires fmt != [] && !fmt[0].Lit?
    requires AllDigits(digits) && (rest == [] || !IsDigit(rest[0]))
    ensures Scan(fmt, digits + rest, f) ==
      if Accepts(fmt[0], digits) then Scan(fmt[1..], rest, Store(f, fmt[0], DigitsValue(digits))) else None
  {
    DigitRunOf(digits, rest);
    assert (digits + rest)[..|digits|] == digits;
    assert (digits + rest)[|digits|..] == rest;
  }

  lemma ScanLit(fmt: seq<Directive>, c: char, rest: string, f: DateFields)
    requires fmt != [] && fmt[0] == Lit(c)
    ensures Scan(fmt, [c] + rest, f) == Scan(fmt[1..], rest, f)
  {
    assert ([c] + rest)[1..] == rest;
  }

  /** `%d-%m-%Y`, `%d.%m.%Y` and `%d/%m/%Y`. */
  function DayMonthYear(sep: char): seq<Directive> { [Day, Lit(sep), Month, Lit(sep), Year] }

  function DateText(dd: string, mm: string, yyyy: string, sep: char): string {
    dd + ([sep] + (mm + ([sep] + yyyy)))
  }

  /**
   * A day-month-year format reads one or two day digits, one or two month digits and four
   * year digits, and succeeds exactly when they name a day of the calendar.
   */
  lemma DayMonthYearParses(dd: string, mm: string, yyyy: string, sep: char)
    requires 1 <= |dd| <= 2 && 1 <= |mm| <= 2 && |yyyy| == 4
    requires AllDigits(dd) && AllDigits(mm) && AllDigits(yyyy) && !IsDigit(sep)
    ensures Parses(DateText(dd, mm, yyyy, sep), DayMonthYear(sep)) <==>
      IsValidDate(DateFields(DigitsValue(dd), DigitsValue(mm), DigitsValue(yyyy)))
  {
    var fmt := DayMonthYear(sep);
    var f0 := DateFields(1, 1, 1900);
    ScanNumber(fmt, dd, [sep] + (mm + ([sep] + yyyy)), f0);
    if Accepts(Day, dd) {
      var f1 := Store(f0, Day, DigitsValue(dd));
      assert fmt[1..] == [Lit(sep), Month, Lit(sep), Year];
      ScanLit(fmt[1..], sep, mm + ([sep] + yyyy), f1);
      assert fmt[1..][1..] == [Month, Lit(sep), Year];
      ScanNumber(fmt[1..][1..], mm, [sep] + yyyy, f1);
      if Accepts(Month, mm) {
        var f2 := Store(f1, Month, DigitsValue(mm));
        assert fmt[1..][1..][1..] == [Lit(sep), Year];
        ScanLit(fmt[1..][1..][1..], sep, yyyy, f2);
        assert fmt[1..][1..][1..][1..] == [Year];
        assert yyyy + [] == yyyy;
        ScanNumber(fmt[1..][1..][1..][1..], yyyy, [], f2);
      }
    }
  }

  /** The 29th of February is a date exactly in leap years; the 30th never is. */
  lemma FebruaryTwentyNinth(yyyy: string)
    requires |yyyy| == 4 && AllDigits(yyyy) && DigitsValue(yyyy) >= 1
    ensures Parses(DateText("29", "02", yyyy, '.'), DayMonthYear('.')) <==> IsLeapYear(DigitsValue(yyyy))
  {
    DigitsValueTwo("29");
    DigitsValueTwo("02");
    DayMonthYearParses("29", "02", yyyy, '.');
  }

  lemma NoThirtiethOfFebruary()
    ensures !Parses(DateText("30", "02", "2024", '.'), DayMonthYear('.'))
  {
    DigitsValueTwo("30");
    DigitsValueTwo("02");
    DigitsValueFour("2024");
    DayMonthYearParses("30", "02", "2024", '.');
  }

  /** Day and month may be single digits. */
  lemma ShortDayAndMonth()
    ensures Parses(DateText("5", "3", "2024", '/'), DayMonthYear('/'))
  {
    DigitsValueOne("5");
    DigitsValueOne("3");
    DigitsValueFour("2024");
    DayMonthYearParses("5", "3", "2024", '/');
  }

  lemma DateTextChars(dd: string, mm: string, yyyy: string, sep: char)
    requires AllDigits(dd) && AllDigits(mm) && AllDigits(yyyy)
    ensures forall i :: 0 <= i < |DateText(dd, mm, yyyy, sep)| ==>
      IsDigit(DateText(dd, mm, yyyy, sep)[i]) || DateText(dd, mm, yyyy, sep)[i] == sep
  {
  }

  /** A day-month-year text is never a number to `float()`. */
  lemma DateTextNotFloat(dd: string, mm: string, yyyy: string, sep: char)
    requires 1 <= |dd| <= 2 && 1 <= |mm| <= 2 && |yyyy| == 4
    requires AllDigits(dd) && AllDigits(mm) && AllDigits(yyyy) && sep in "-./"
    ensures !IsFloat(DateText(dd, mm, yyyy, sep))
  {
    var t := DateText(dd, mm, yyyy, sep);
    DateTextChars(dd, mm, yyyy, sep);
    assert t[0] == dd[0];
    PlainFloat(t);
    assert t[|dd|] == sep;
    if sep == '.' {
      assert t[|dd| + 1 + |mm|] == '.';
      MantissaTwoDots(t, |dd|, |dd| + 1 + |mm|);
    } else {
      MantissaStray(t, |dd|);
    }
  }

  /** A day-month-year text naming a real day is a TIMESTAMP. */
  lemma DateTextIsTimestamp(dd: string, mm: string, yyyy: string, sep: char, valueId: Option<string>)
    requires 1 <= |dd| <= 2 && 1 <= |mm| <= 2 && |yyyy| == 4
    requires AllDigits(dd) && AllDigits(mm) && AllDigits(yyyy) && sep in "-./"
    requires IsValidDate(DateFields(DigitsValue(dd), DigitsValue(mm), DigitsValue(yyyy)))
    ensures DetermineFieldType(Some(DateText(dd, mm, yyyy, sep)), valueId) == Timestamp
  {
    var t := DateText(dd, mm, yyyy, sep);
    DateTextNotFloat(dd, mm, yyyy, sep);
    DayMonthYearParses(dd, mm, yyyy, sep);
    var j := if sep == '-' then 1 else if sep == '.' then 3 else 4;
    assert DateFormats[j] == DayMonthYear(sep);
    assert t != "" && t[0] == dd[0];
  }

  // ---------------------------------------------------------------------------------------
  // determine_field_type

  /** `['true', 'false', 'да', 'нет', '1', '0']` */
  const BooleanLiterals: seq<string> := ["true", "false", "\U{0434}\U{0430}", "\U{043D}\U{0435}\U{0442}", "1", "0"]

  /** The four literals that can actually make a column BOOLEAN. */
  const BooleanWords: seq<string> := ["true", "false", "\U{0434}\U{0430}", "\U{043D}\U{0435}\U{0442}"]

  /**
   * `determine_field_type`: TEXT for a missing or empty value, then, in order, INTEGER or
   * NUMERIC for what `float()` reads, TIMESTAMP for a date, BOOLEAN for a boolean literal,
   * and TEXT for anything else. `value_id` takes no part.
   */
  function DetermineFieldType(value: Option<string>, valueId: Option<string>): SqlType {
    if !Present(value) then Text
    else
      var v := value.value;
      if IsFloat(v) then (if '.' in v then Numeric else Integer)
      else if IsDateString(v) then Timestamp
      else if LowerStr(v) in BooleanLiterals then Boolean
      else Text
  }

  /**
   * The number types go exactly to the values `float()` reads, NUMERIC to those with a `.`;
   * TIMESTAMP exactly to the other values that are dates; and the `valueId` never matters.
   */
  lemma TypePriority(value: Option<string>, valueId: Option<string>)
    ensures DetermineFieldType(value, valueId) == DetermineFieldType(value, None)
    ensures !Present(value) ==> DetermineFieldType(value, valueId) == Text
    ensures Present(value) ==>
      ((DetermineFieldType(value, valueId) == Integer || DetermineFieldType(value, valueId) == Numeric) <==> IsFloat(value.value))
    ensures Present(value) && IsFloat(value.value) ==>
      (DetermineFieldType(value, valueId) == Numeric <==> '.' in value.value)
    ensures Present(value) ==>
      (DetermineFieldType(value, valueId) == Timestamp <==> !IsFloat(value.value) && IsDateString(value.value))
  {
  }

  /** A run of digits is INTEGER; in particular `1` and `0` never make a column BOOLEAN. */
  lemma DigitsAreInteger(v: string, valueId: Option<string>)
    requires |v| > 0 && AllDigits(v)
    ensures DetermineFieldType(Some(v), valueId) == Integer
  {
    DigitsAreFloat(v);
    assert forall i :: 0 <= i < |v| ==> v[i] != '.';
  }

  lemma LowerToLetter(c: char)
    requires IsLowerLetter(Lower(c))
    ensures !IsDigit(c) && !IsSpace(c)
  {
  }

  /** BOOLEAN is given exactly to the values whose lower case is true, false, да or нет. */
  lemma BooleanIffWord(v: string, valueId: Option<string>)
    requires v != ""
    ensures DetermineFieldType(Some(v), valueId) == Boolean <==> LowerStr(v) in BooleanWords
  {
    var w := LowerStr(v);
    if w in BooleanWords {
      assert w[0] == Lower(v[0]) && w[|w| - 1] == Lower(v[|v| - 1]);
      LowerToLetter(v[0]);
      LowerToLetter(v[|v| - 1]);
      WordNotFloat(v);
      NoLeadingDigitNoDate(v);
    } else if w == "1" || w == "0" {
      assert Lower(v[0]) == w[0];
      assert v == w;
      DigitsAreInteger(v, valueId);
    }
  }
}
