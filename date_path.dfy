/** The date path segment: a `YYYY-MM-DD` date from the date picker is read
    with strptime('%Y-%m-%d') and written back with strftime('%m-%d-%Y') to
    name the daily snapshot file (app.py lines 87-88 and 160-161). */
module DatePath {
  import opened Wrappers

  datatype Date = Date(year: int, month: int, day: int)

  /** Why strptime raises ValueError: the text does not match the format
      (or leaves unconverted characters), or the fields do not form a date. */
  datatype DateError = Malformed | OutOfRange

  predicate IsLeapYear(y: int)
  {
    y % 4 == 0 && (y % 100 != 0 || y % 400 == 0)
  }

  function DaysInMonth(y: int, m: int): (n: int)
    requires 1 <= m <= 12
    ensures 28 <= n <= 31
  {
    if m == 2 then (if IsLeapYear(y) then 29 else 28)
    else if m == 4 || m == 6 || m == 9 || m == 11 then 30
    else 31
  }

  /** A date that Python's datetime accepts (years 1 to 9999). */
  predicate ValidDate(d: Date)
  {
    1 <= d.year <= 9999 && 1 <= d.month <= 12 && 1 <= d.day <= DaysInMonth(d.year, d.month)
  }

  // ---------------------------------------------------------------------
  // Digits and the three strptime fields

  predicate IsDigit(c: char)
  {
    '0' <= c <= '9'
  }

  function DigitValue(c: char): (n: nat)
    requires IsDigit(c)
    ensures n < 10
  {
    c as int - '0' as int
  }

  function DigitChar(n: nat): (c: char)
    requires n < 10
    ensures IsDigit(c) && DigitValue(c) == n
  {
    ('0' as int + n) as char
  }

  predicate AllDigits(s: string)
  {
    forall i :: 0 <= i < |s| ==> IsDigit(s[i])
  }

  /** The decimal number a string of digits spells. */
  function DigitsValue(s: string): (n: nat)
    requires AllDigits(s)
  {
    if s == [] then 0 else DigitsValue(s[..|s| - 1]) * 10 + DigitValue(s[|s| - 1])
  }

  /** `%Y` reads exactly four digits. */
  predicate YearField(t: string)
  {
    |t| == 4 && AllDigits(t)
  }

  /** `%m` reads `1[0-2]`, `0[1-9]` or `[1-9]`. */
  predicate MonthField(t: string)
  {
    || (|t| == 2 && t[0] == '1' && '0' <= t[1] <= '2')
    || (|t| == 2 && t[0] == '0' && '1' <= t[1] <= '9')
    || (|t| == 1 && '1' <= t[0] <= '9')
  }

  /** `%d` reads `3[01]`, `[12]` and a digit, `0[1-9]`, `[1-9]`, or a space
      and `[1-9]`. */
  predicate DayField(t: string)
  {
    || (|t| == 2 && t[0] == '3' && (t[1] == '0' || t[1] == '1'))
    || (|t| == 2 && (t[0] == '1' || t[0] == '2') && IsDigit(t[1]))
    || (|t| == 2 && t[0] == '0' && '1' <= t[1] <= '9')
    || (|t| == 1 && '1' <= t[0] <= '9')
    || (|t| == 2 && t[0] == ' ' && '1' <= t[1] <= '9')
  }

  function YearValue(t: string): (y: int)
    requires YearField(t)
    ensures 0 <= y <= 9999
  {
    DigitsValueFour(t);
    DigitsValueTwo(t[..2]);
    DigitsValueTwo(t[2..]);
    DigitsValue(t)
  }

  function MonthValue(t: string): (m: int)
    requires MonthField(t)
    ensures 1 <= m <= 12
  {
    if |t| == 2 then DigitsValueTwo(t); DigitsValue(t)
    else DigitsValueOne(t); DigitsValue(t)
  }

  function DayValue(t: string): (d: int)
    requires DayField(t)
    ensures 1 <= d <= 31
  {
    if t[0] == ' ' then DigitValue(t[1])
    else if |t| == 2 then DigitsValueTwo(t); DigitsValue(t)
    else DigitsValueOne(t); DigitsValue(t)
  }

  /** A `%m` or `%d` field followed by '-': the field is one or two characters
      and never holds '-', so it ends at the first '-' and that '-' is the
      second or third character. Returns the field and what follows the '-'. */
  function SplitField(s: string): (r: Option<(string, string)>)
    ensures r.Some? ==> s == r.value.0 + "-" + r.value.1
  {
    if |s| >= 2 && s[1] == '-' then Some((s[..1], s[2..]))
    else if |s| >= 3 && s[2] == '-' then Some((s[..2], s[3..]))
    else None
  }

  /** datetime's own check of the matched fields. */
  function MakeDate(y: int, m: int, d: int): (r: Result<Date, DateError>)
    requires 0 <= y <= 9999 && 1 <= m <= 12 && 1 <= d
    ensures r.Ok? <==> ValidDate(Date(y, m, d))
    ensures r.Ok? ==> r.value == Date(y, m, d)
    ensures r.Err? ==> r.error == OutOfRange
  {
    if y == 0 || d > DaysInMonth(y, m) then Err(OutOfRange) else Ok(Date(y, m, d))
  }

  // ---------------------------------------------------------------------
  // strptime and strftime

  /** strptime(s, '%Y-%m-%d'). */
  function ParseIsoDate(s: string): (r: Result<Date, DateError>)
    ensures r.Ok? ==> ValidDate(r.value)
  {
    if |s| < 5 || !YearField(s[..4]) || s[4] != '-' then Err(Malformed)
    else
      match SplitField(s[5..])
      case None => Err(Malformed)
      case Some((m, d)) =>
        if !MonthField(m) || !DayField(d) then Err(Malformed)
        else MakeDate(YearValue(s[..4]), MonthValue(m), DayValue(d))
  }

  /** strptime(s, '%m-%d-%Y'): how the snapshot file name reads back. */
  function ParsePathSegment(s: string): (r: Result<Date, DateError>)
    ensures r.Ok? ==> ValidDate(r.value)
  {
    match SplitField(s)
    case None => Err(Malformed)
    case Some((m, rest)) =>
      match SplitField(rest)
      case None => Err(Malformed)
      case Some((d, y)) =>
        if !MonthField(m) || !DayField(d) || !YearField(y) then Err(Malformed)
        else MakeDate(YearValue(y), MonthValue(m), DayValue(d))
  }

  /** Two digits, zero-padded (`%m`, `%d` in strftime). */
  function Pad2(n: nat): (s: string)
    requires n < 100
    ensures |s| == 2 && AllDigits(s)
  {
    [DigitChar(n / 10), DigitChar(n % 10)]
  }

  /** Four digits, zero-padded (`%Y` in strftime). */
  function Pad4(n: nat): (s: string)
    requires n < 10000
    ensures |s| == 4 && AllDigits(s)
  {
    Pad2(n / 100) + Pad2(n % 100)
  }

  /** strftime(d, '%m-%d-%Y'). */
  function FormatPathSegment(d: Date): (r: string)
    requires ValidDate(d)
    ensures |r| == 10 && r[2] == '-' && r[5] == '-'
    ensures AllDigits(r[..2]) && AllDigits(r[3..5]) && AllDigits(r[6..])
    ensures DigitsValue(r[..2]) == d.month && DigitsValue(r[3..5]) == d.day
    ensures DigitsValue(r[6..]) == d.year
  {
    Pad2Value(d.month);
    Pad2Value(d.day);
    Pad4Value(d.year);
    var r := Pad2(d.month) + "-" + Pad2(d.day) + "-" + Pad4(d.year);
    assert r[..2] == Pad2(d.month) && r[3..5] == Pad2(d.day) && r[6..] == Pad4(d.year);
    r
  }

  /** The date as the date picker writes it, `YYYY-MM-DD`. */
  function FormatIsoDate(d: Date): (r: string)
    requires ValidDate(d)
    ensures |r| == 10 && r[4] == '-' && r[7] == '-'
  {
    Pad4(d.year) + "-" + Pad2(d.month) + "-" + Pad2(d.day)
  }

  /** app.py lines 87-88 and 160-161: the date picker's value turned into
      the name of the snapshot file, or the ValueError strptime raises. */
  function ToPathSegment(dateValue: string): (r: Result<string, DateError>)
    ensures r.Ok? <==> ParseIsoDate(dateValue).Ok?
    ensures r.Ok? ==> |r.value| == 10 && r.value[2] == '-' && r.value[5] == '-'
    ensures r.Ok? ==> ValidDate(ParseIsoDate(dateValue).value)
    ensures r.Ok? ==> r.value == FormatPathSegment(ParseIsoDate(dateValue).value)
    ensures r.Err? ==> ParseIsoDate(dateValue) == Err(r.error)
  {
    match ParseIsoDate(dateValue)
    case Err(e) => Err(e)
    case Ok(d) => Ok(FormatPathSegment(d))
  }

  // ---------------------------------------------------------------------
  // Digit arithmetic

  lemma DigitsValueTwo(s: string)
    requires |s| == 2 && AllDigits(s)
    ensures DigitsValue(s) == 10 * DigitValue(s[0]) + DigitValue(s[1])
  {
    var head := s[..1];
    assert s[..|s| - 1] == head && head[0] == s[0];
    DigitsValueOne(head);
  }

  lemma DigitsValueOne(s: string)
    requires |s| == 1 && AllDigits(s)
    ensures DigitsValue(s) == DigitValue(s[0])
  {
    assert s[..0] == [];
  }

  lemma DigitsValueFour(s: string)
    requires |s| == 4 && AllDigits(s)
    ensures DigitsValue(s) == 100 * DigitsValue(s[..2]) + DigitsValue(s[2..])
  {
    var three := s[..3];
    assert s[..|s| - 1] == three && three[..|three| - 1] == s[..2];
    DigitsValueTwo(s[2..]);
  }

  lemma Pad2Value(n: nat)
    requires n < 100
    ensures DigitsValue(Pad2(n)) == n
  {
    DigitsValueTwo(Pad2(n));
  }

  lemma Pad4Value(n: nat)
    requires n < 10000
    ensures DigitsValue(Pad4(n)) == n
  {
    var s := Pad4(n);
    assert s[..2] == Pad2(n / 100) && s[2..] == Pad2(n % 100);
    DigitsValueFour(s);
    Pad2Value(n / 100);
    Pad2Value(n % 100);
  }

  // ---------------------------------------------------------------------
  // Fields written by strftime and read back by strptime

  lemma Pad2Digits(t: string)
    requires |t| == 2 && AllDigits(t)
    ensures DigitsValue(t) < 100 && Pad2(DigitsValue(t)) == t
  {
    DigitsValueTwo(t);
  }

  lemma Pad4Digits(t: string)
    requires YearField(t)
    ensures DigitsValue(t) < 10000 && Pad4(DigitsValue(t)) == t
  {
    DigitsValueFour(t);
    Pad2Digits(t[..2]);
    Pad2Digits(t[2..]);
    assert t == t[..2] + t[2..];
  }

  /** A two-digit month field is accepted exactly when it names a month. */
  lemma TwoDigitMonth(t: string)
    requires |t| == 2 && AllDigits(t)
    ensures MonthField(t) <==> 1 <= DigitsValue(t) <= 12
    ensures MonthField(t) ==> MonthValue(t) == DigitsValue(t)
  {
    DigitsValueTwo(t);
  }

  /** A two-digit day field is accepted exactly when it is 01 to 31. */
  lemma TwoDigitDay(t: string)
    requires |t| == 2 && AllDigits(t)
    ensures DayField(t) <==> 1 <= DigitsValue(t) <= 31
    ensures DayField(t) ==> DayValue(t) == DigitsValue(t)
  {
    DigitsValueTwo(t);
  }

  lemma Pad2Fields(n: nat)
    requires n < 100
    ensures 1 <= n <= 12 ==> MonthField(Pad2(n)) && MonthValue(Pad2(n)) == n
    ensures 1 <= n <= 31 ==> DayField(Pad2(n)) && DayValue(Pad2(n)) == n
  {
    Pad2Value(n);
    TwoDigitMonth(Pad2(n));
    TwoDigitDay(Pad2(n));
  }

  lemma Pad4Field(n: nat)
    requires n < 10000
    ensures YearField(Pad4(n)) && YearValue(Pad4(n)) == n
  {
    Pad4Value(n);
  }

  /** Reading the file name back with strptime('%m-%d-%Y') gives the date
      it was written from. */
  lemma PathSegmentRoundTrip(d: Date)
    requires ValidDate(d)
    ensures ParsePathSegment(FormatPathSegment(d)) == Ok(d)
  {
    var m, dd, y := Pad2(d.month), Pad2(d.day), Pad4(d.year);
    var s := FormatPathSegment(d);
    assert s == m + "-" + dd + "-" + y;
    Pad2Fields(d.month);
    Pad2Fields(d.day);
    Pad4Field(d.year);
    var rest := dd + "-" + y;
    assert SplitField(s) == Some((m, rest)) by { assert s[2] == '-' && s[..2] == m && s[3..] == rest; }
    assert SplitField(rest) == Some((dd, y)) by { assert rest[2] == '-' && rest[..2] == dd && rest[3..] == y; }
  }

  /** The date picker's own `YYYY-MM-DD` form of a date parses to that date. */
  lemma IsoRoundTrip(d: Date)
    requires ValidDate(d)
    ensures ParseIsoDate(FormatIsoDate(d)) == Ok(d)
  {
    var y, m, dd := Pad4(d.year), Pad2(d.month), Pad2(d.day);
    var s := FormatIsoDate(d);
    assert s == y + "-" + m + "-" + dd;
    Pad2Fields(d.month);
    Pad2Fields(d.day);
    Pad4Field(d.year);
    assert s[..4] == y && s[5..] == m + "-" + dd;
    var rest := s[5..];
    assert SplitField(rest) == Some((m, dd)) by { assert rest[2] == '-' && rest[..2] == m && rest[3..] == dd; }
  }

  /** app.py lines 87-88: the path segment exists exactly when strptime
      accepts the date, it is ten characters long, and strptime('%m-%d-%Y')
      reads the same date back from it; otherwise strptime's error is
      propagated unchanged. */
  lemma ToPathSegmentReadsBack(dateValue: string)
    ensures ToPathSegment(dateValue).Ok? <==> ParseIsoDate(dateValue).Ok?
    ensures ToPathSegment(dateValue).Ok? ==>
      |ToPathSegment(dateValue).value| == 10 &&
      ParsePathSegment(ToPathSegment(dateValue).value) == ParseIsoDate(dateValue)
    ensures ToPathSegment(dateValue).Err? ==>
      ParseIsoDate(dateValue) == Err(ToPathSegment(dateValue).error)
  {
    if ParseIsoDate(dateValue).Ok? {
      PathSegmentRoundTrip(ParseIsoDate(dateValue).value);
    }
  }

  /** A string of the shape `dddd-dd-dd`, as the date picker sends it. */
  predicate IsoShaped(s: string)
  {
    |s| == 10 && s[4] == '-' && s[7] == '-' &&
    AllDigits(s[..4]) && AllDigits(s[5..7]) && AllDigits(s[8..])
  }

  /** For a `YYYY-MM-DD` string: the segment is produced exactly when year,
      month and day form a valid date (so month 00 or 13, 30 February and
      29 February of a common year are rejected), and then it is the same
      three fields rearranged as `MM-DD-YYYY`. */
  lemma ToPathSegmentOfIsoShape(s: string)
    requires IsoShaped(s)
    ensures ToPathSegment(s).Ok? <==>
      ValidDate(Date(DigitsValue(s[..4]), DigitsValue(s[5..7]), DigitsValue(s[8..])))
    ensures ToPathSegment(s).Ok? ==>
      ToPathSegment(s).value == s[5..7] + "-" + s[8..] + "-" + s[..4]
  {
    var y, m, d := s[..4], s[5..7], s[8..];
    var rest := s[5..];
    assert SplitField(rest) == Some((m, d)) by { assert rest[2] == '-' && rest[..2] == m && rest[3..] == d; }
    TwoDigitMonth(m);
    TwoDigitDay(d);
    Pad2Digits(m);
    Pad2Digits(d);
    Pad4Digits(y);
    var date := Date(DigitsValue(y), DigitsValue(m), DigitsValue(d));
    if MonthField(m) && DayField(d) {
      assert ParseIsoDate(s) == MakeDate(YearValue(y), MonthValue(m), DayValue(d));
    } else {
      assert ParseIsoDate(s) == Err(Malformed);
      assert !ValidDate(date);
    }
  }

  // ---------------------------------------------------------------------
  // Examples

  /** 29 February 2020 exists. */
  lemma LeapDayExample()
    ensures ToPathSegment("2020-02-29") == Ok("02-29-2020")
  {
    var s := "2020-02-29";
    assert s[..4] == "2020" && s[4] == '-' && s[5..] == "02-29";
    var rest := "02-29";
    assert rest[1] != '-' && rest[2] == '-' && rest[..2] == "02" && rest[3..] == "29";
    assert SplitField(rest) == Some(("02", "29"));
    assert YearValue("2020") == 2020 by {
      DigitsValueFour("2020");
      DigitsValueTwo("2020"[..2]);
      DigitsValueTwo("2020"[2..]);
    }
    assert MonthValue("02") == 2 by { DigitsValueTwo("02"); }
    assert DayValue("29") == 29 by { DigitsValueTwo("29"); }
    assert ParseIsoDate(s) == Ok(Date(2020, 2, 29));
    assert Pad2(2) == "02" && Pad2(29) == "29" && Pad4(2020) == "2020";
    assert FormatPathSegment(Date(2020, 2, 29)) == "02-29-2020";
  }

  /** 29 February 2021 does not: strptime raises instead of giving a path. */
  lemma CommonYearExample()
    ensures ToPathSegment("2021-02-29") == Err(OutOfRange)
  {
    var s := "2021-02-29";
    assert s[..4] == "2021" && s[4] == '-' && s[5..] == "02-29";
    var rest := "02-29";
    assert rest[1] != '-' && rest[2] == '-' && rest[..2] == "02" && rest[3..] == "29";
    assert SplitField(rest) == Some(("02", "29"));
    assert YearValue("2021") == 2021 by {
      DigitsValueFour("2021");
      DigitsValueTwo("2021"[..2]);
      DigitsValueTwo("2021"[2..]);
    }
    assert MonthValue("02") == 2 by { DigitsValueTwo("02"); }
    assert DayValue("29") == 29 by { DigitsValueTwo("29"); }
    assert ParseIsoDate(s) == MakeDate(2021, 2, 29);
  }

  /** There is no month 13. */
  lemma MonthThirteenExample()
    ensures ToPathSegment("2020-13-01") == Err(Malformed)
  {
    var s := "2020-13-01";
    assert s[..4] == "2020" && s[5..] == "13-01";
    var rest := "13-01";
    assert rest[1] != '-' && rest[2] == '-' && rest[..2] == "13" && rest[3..] == "01";
  }

  /** strptime also reads a one-digit month and day. */
  lemma OneDigitExample()
    ensures ToPathSegment("2023-3-9") == Ok("03-09-2023")
  {
    var s := "2023-3-9";
    assert s[..4] == "2023" && s[4] == '-' && s[5..] == "3-9";
    var rest := "3-9";
    assert rest[1] == '-' && rest[..1] == "3" && rest[2..] == "9";
    assert SplitField(rest) == Some(("3", "9"));
    assert YearValue("2023") == 2023 by {
      DigitsValueFour("2023");
      DigitsValueTwo("2023"[..2]);
      DigitsValueTwo("2023"[2..]);
    }
    assert MonthValue("3") == 3 by { DigitsValueOne("3"); }
    assert DayValue("9") == 9 by { DigitsValueOne("9"); }
    assert ParseIsoDate(s) == Ok(Date(2023, 3, 9));
    assert Pad2(3) == "03" && Pad2(9) == "09" && Pad4(2023) == "2023";
    assert FormatPathSegment(Date(2023, 3, 9)) == "03-09-2023";
  }
}
