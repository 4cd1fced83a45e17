/// The order-date check of the order-entry writer: the date the caller
/// passes is read with `strptime(…, "%Y-%m-%d")` and written back with
/// `strftime("%Y-%m-%d")`; a date that does not read is answered with an
/// error of status 400.
module OrderDate {
  import opened Wrappers


  datatype Date = Date(year: nat, month: nat, day: nat)

  /** The normalised date, or the error raised to the caller. */
  datatype Outcome = Normalised(date: string) | ApiError(status: nat, message: string)

  predicate IsDigit(c: char) {
    '0' <= c <= '9'
  }

  function DigitValue(c: char): (n: nat)
    requires IsDigit(c)
    ensures n <= 9
  {
    (c - '0') as nat
  }

  predicate IsLeapYear(year: nat) {
    (year % 4 == 0 && year % 100 != 0) || year % 400 == 0
  }

  function DaysInMonth(year: nat, month: nat): (n: nat)
    requires 1 <= month <= 12
    ensures 28 <= n <= 31
  {
    if month == 2 then (if IsLeapYear(year) then 29 else 28)
    else if month == 4 || month == 6 || month == 9 || month == 11 then 30
    else 31
  }

  /** A date the `datetime` type can hold. */
  predicate IsValidDate(d: Date) {
    1 <= d.year <= 9999 && 1 <= d.month <= 12 && 1 <= d.day <= DaysInMonth(d.year, d.month)
  }

  /** `(?P<Y>\d\d\d\d)` */
  function YearAt(s: string): (year: nat)
    requires |s| >= 4 && IsDigit(s[0]) && IsDigit(s[1]) && IsDigit(s[2]) && IsDigit(s[3])
    ensures year <= 9999
  {
    1000 * DigitValue(s[0]) + 100 * DigitValue(s[1]) + 10 * DigitValue(s[2]) + DigitValue(s[3])
  }

  /** Value and length of each alternative of `(?P<m>1[0-2]|0[1-9]|[1-9])`
      that matches at the front of `s`, in the order the pattern tries
      them. */
  function MonthAlternatives(s: string): (r: seq<(nat, nat)>)
    ensures forall i :: 0 <= i < |r| ==> 1 <= r[i].0 <= 12 && 1 <= r[i].1 <= |s|
  {
    (if |s| >= 2 && s[0] == '1' && '0' <= s[1] <= '2' then [(10 + DigitValue(s[1]), 2)] else [])
    + (if |s| >= 2 && s[0] == '0' && '1' <= s[1] <= '9' then [(DigitValue(s[1]), 2)] else [])
    + (if |s| >= 1 && '1' <= s[0] <= '9' then [(DigitValue(s[0]), 1)] else [])
  }

  /** Value and length of each alternative of
      `(?P<d>3[01]|[12]\d|0[1-9]|[1-9]| [1-9])` that matches at the front
      of `s`, in the order the pattern tries them. */
  function DayAlternatives(s: string): (r: seq<(nat, nat)>)
    ensures forall i :: 0 <= i < |r| ==> 1 <= r[i].0 <= 31 && 1 <= r[i].1 <= |s|
  {
    (if |s| >= 2 && s[0] == '3' && '0' <= s[1] <= '1' then [(30 + DigitValue(s[1]), 2)] else [])
    + (if |s| >= 2 && '1' <= s[0] <= '2' && IsDigit(s[1]) then [(10 * DigitValue(s[0]) + DigitValue(s[1]), 2)] else [])
    + (if |s| >= 2 && s[0] == '0' && '1' <= s[1] <= '9' then [(DigitValue(s[1]), 2)] else [])
    + (if |s| >= 1 && '1' <= s[0] <= '9' then [(DigitValue(s[0]), 1)] else [])
    + (if |s| >= 2 && s[0] == ' ' && '1' <= s[1] <= '9' then [(DigitValue(s[1]), 2)] else [])
  }

  /** The month alternatives from `months` on, tried in order after the
      year at `s[..5]`: the first one followed by `-` and a day wins, and
      the first day alternative ends the match, as nothing follows it in
      the pattern. Gives the fields read and the end of the match. */
  function MatchMonthDay(s: string, year: nat, months: seq<(nat, nat)>): (r: Option<(Date, nat)>)
    requires |s| >= 5
    requires forall i :: 0 <= i < |months| ==> 1 <= months[i].0 <= 12 && 1 <= months[i].1 <= |s| - 5
    ensures r.Some? ==> r.value.1 <= |s| && r.value.0.year == year
    ensures r.Some? ==> 1 <= r.value.0.month <= 12 && 1 <= r.value.0.day <= 31
  {
    if months == [] then None
    else
      var monthEnd := 5 + months[0].1;
      if monthEnd < |s| && s[monthEnd] == '-' && DayAlternatives(s[monthEnd + 1..]) != [] then
        var day := DayAlternatives(s[monthEnd + 1..])[0];
        Some((Date(year, months[0].0, day.0), monthEnd + 1 + day.1))
      else MatchMonthDay(s, year, months[1..])
  }

  /** `re.match` of the compiled format at the front of `s`. */
  function MatchFormat(s: string): (r: Option<(Date, nat)>)
    ensures r.Some? ==> r.value.1 <= |s| && r.value.0.year <= 9999
    ensures r.Some? ==> 1 <= r.value.0.month <= 12 && 1 <= r.value.0.day <= 31
  {
    if |s| < 5 || !IsDigit(s[0]) || !IsDigit(s[1]) || !IsDigit(s[2]) || !IsDigit(s[3]) || s[4] != '-' then None
    else MatchMonthDay(s, YearAt(s), MonthAlternatives(s[5..]))
  }

  /** `datetime.strptime(s, "%Y-%m-%d")`: the format must match at the
      front, leave nothing unconverted, and name a day of the calendar. */
  function Parse(s: string): (r: Option<Date>)
    ensures r.Some? ==> IsValidDate(r.value)
  {
    match MatchFormat(s)
    case None => None
    case Some((d, matchEnd)) =>
      if matchEnd != |s| then None
      else if !IsValidDate(d) then None
      else Some(d)
  }

  /** `n` in `width` decimal digits, zero-padded on the left. */
  function Padded(n: nat, width: nat): (r: string)
    ensures |r| == width
    ensures forall i :: 0 <= i < |r| ==> IsDigit(r[i])
  {
    if width == 0 then "" else Padded(n / 10, width - 1) + [('0' as int + n % 10) as char]
  }

  /** `date.strftime("%Y-%m-%d")` */
  function Format(d: Date): (r: string)
    ensures |r| == 10 && r[4] == '-' && r[7] == '-'
    ensures forall i :: 0 <= i < 10 && i != 4 && i != 7 ==> IsDigit(r[i])
  {
    Padded(d.year, 4) + "-" + Padded(d.month, 2) + "-" + Padded(d.day, 2)
  }

  /** The order-date normalisation: a readable date is re-emitted in the
      zero-padded form, anything else is an error of status 400 naming the
      value received. */
  function NormaliseOrderDate(orderDate: string): (r: Outcome)
    ensures r.Normalised? <==> Parse(orderDate).Some?
    ensures r.ApiError? ==> r.status == 400
    ensures r.Normalised? ==> r.date == Format(Parse(orderDate).value)
    ensures r.Normalised? ==> Parse(r.date) == Parse(orderDate)
  {
    match Parse(orderDate)
    case Some(d) => ParseFormat(d); Normalised(Format(d))
    case None => ApiError(400, "Invalid date format passed. Expected: [YYYY-MM-DD]. Received: `" + orderDate + "`")
  }

  // ---------------------------------------------------------------------
  // Properties of the normalisation

  /** The two digits `Padded` writes for a month or a day. */
  lemma TwoDigits(n: nat)
    requires n <= 99
    ensures Padded(n, 2) == [('0' as int + n / 10) as char, ('0' as int + n % 10) as char]
  {
    assert Padded(n / 10, 1) == Padded(n / 10 / 10, 0) + [('0' as int + (n / 10) % 10) as char];
  }

  /** The four digits `Padded` writes for a year read back as that year. */
  lemma FourDigitsReadBack(year: nat)
    requires year <= 9999
    ensures YearAt(Padded(year, 4)) == year
  {
    var q1 := year / 10;
    var q2 := q1 / 10;
    var q3 := q2 / 10;
    assert Padded(year, 4) == Padded(q1, 3) + [('0' as int + year % 10) as char];
    assert Padded(q1, 3) == Padded(q2, 2) + [('0' as int + q1 % 10) as char];
    TwoDigits(q2);
  }

  /** A zero-padded month is read back by its first matching alternative. */
  lemma MonthReadsBack(s: string, m: nat)
    requires 1 <= m <= 12 && |s| >= 2 && s[..2] == Padded(m, 2)
    ensures MonthAlternatives(s) != [] && MonthAlternatives(s)[0] == (m, 2)
  {
    TwoDigits(m);
  }

  /** A zero-padded day is read back by its first matching alternative. */
  lemma DayReadsBack(s: string, d: nat)
    requires 1 <= d <= 31 && |s| == 2 && s == Padded(d, 2)
    ensures DayAlternatives(s) != [] && DayAlternatives(s)[0] == (d, 2)
  {
    TwoDigits(d);
  }

  /** Reading back what `strftime` wrote gives the same calendar day. */
  lemma ParseFormat(d: Date)
    requires IsValidDate(d)
    ensures Parse(Format(d)) == Some(d)
  {
    var s := Format(d);
    assert s[..4] == Padded(d.year, 4);
    FourDigitsReadBack(d.year);
    assert YearAt(s) == d.year;
    var months := MonthAlternatives(s[5..]);
    assert s[5..][..2] == Padded(d.month, 2);
    MonthReadsBack(s[5..], d.month);
    assert s[8..] == Padded(d.day, 2);
    DayReadsBack(s[8..], d.day);
    assert MatchMonthDay(s, d.year, months) == Some((d, 10));
  }

  /** The normalised date is itself accepted and left as it is, so
      normalising twice is normalising once. */
  lemma NormaliseIdempotent(orderDate: string)
    requires NormaliseOrderDate(orderDate).Normalised?
    ensures NormaliseOrderDate(NormaliseOrderDate(orderDate).date) == NormaliseOrderDate(orderDate)
  {
    ParseFormat(Parse(orderDate).value);
  }

  /** Every calendar day from year 1 to 9999, written zero-padded, is
      accepted unchanged. */
  lemma CanonicalDatesAccepted(d: Date)
    requires IsValidDate(d)
    ensures NormaliseOrderDate(Format(d)) == Normalised(Format(d))
  {
    ParseFormat(d);
  }

  /** Single-digit months and days, and a day written with a leading
      space, are accepted and zero-padded. */
  lemma ShortFormsPadded()
    ensures Parse("2023-1-5") == Some(Date(2023, 1, 5))
    ensures Parse("2023-01- 5") == Some(Date(2023, 1, 5))
  {
    assert YearAt("2023-1-5") == 2023;
    assert MonthAlternatives("2023-1-5"[5..]) == [(1, 1)];
    assert DayAlternatives("2023-1-5"[7..]) == [(5, 1)];
    assert YearAt("2023-01- 5") == 2023;
    assert MonthAlternatives("2023-01- 5"[5..]) == [(1, 2)];
    assert DayAlternatives("2023-01- 5"[8..]) == [(5, 2)];
  }

  /** The short form is normalised to the zero-padded form. */
  lemma ShortFormNormalised()
    ensures NormaliseOrderDate("2023-1-5") == Normalised("2023-01-05")
  {
    ShortFormsPadded();
    PaddedExample();
  }

  /** `strftime` writes the example day zero-padded. */
  lemma PaddedExample()
    ensures Format(Date(2023, 1, 5)) == "2023-01-05"
  {
    TwoDigits(1);
    TwoDigits(5);
    assert Padded(2023, 4) == Padded(202, 3) + "3";
    assert Padded(202, 3) == Padded(20, 2) + "2";
    TwoDigits(20);
  }

  /** The 29th of February reads only in a leap year. */
  lemma LeapDay()
    ensures Parse("2024-02-29") == Some(Date(2024, 2, 29))
    ensures Parse("2023-02-29") == None
  {
    assert YearAt("2024-02-29") == 2024;
    assert MonthAlternatives("2024-02-29"[5..]) == [(2, 2)];
    assert DayAlternatives("2024-02-29"[8..]) == [(29, 2), (2, 1)];
    assert YearAt("2023-02-29") == 2023;
    assert MonthAlternatives("2023-02-29"[5..]) == [(2, 2)];
    assert DayAlternatives("2023-02-29"[8..]) == [(29, 2), (2, 1)];
  }

  /** A day past 31 matches only its first digit and leaves the second
      unconverted, which is an error of status 400. */
  lemma DayPastMonthRejected()
    ensures NormaliseOrderDate("2023-01-32") == ApiError(400, "Invalid date format passed. Expected: [YYYY-MM-DD]. Received: `2023-01-32`")
  {
    DayPastMonthUnconverted();
    assert "Invalid date format passed. Expected: [YYYY-MM-DD]. Received: `" + "2023-01-32" + "`"
        == "Invalid date format passed. Expected: [YYYY-MM-DD]. Received: `2023-01-32`";
  }

  /** The day `32` leaves its `2` unconverted. */
  lemma DayPastMonthUnconverted()
    ensures Parse("2023-01-32") == None
  {
    assert DayAlternatives("2023-01-32"[8..]) == [(3, 1)];
  }

  /** A thirteenth month does not match. */
  lemma ThirteenthMonthRejected()
    ensures Parse("2023-13-01") == None
  {
    assert MonthAlternatives("2023-13-01"[5..]) == [(1, 1)];
  }

  /** Year 0 is out of range. */
  lemma YearZeroRejected()
    ensures Parse("0000-01-01") == None
  {
    assert YearAt("0000-01-01") == 0;
  }

  /** Trailing text is unconverted data. */
  lemma TrailingTextRejected()
    ensures Parse("2023-01-05 ") == None
  {
    assert DayAlternatives("2023-01-05 "[8..]) == [(5, 2)];
  }
}
