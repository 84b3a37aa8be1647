/** The parts of java.time the services use: LocalDate, YearMonth and
    LocalDateTime as plain values, the proleptic Gregorian month lengths, the
    chronological order, and the ISO 8601 calendar-date texts that
    DateTimeFormatter.ISO_LOCAL_DATE and the pattern "yyyy-MM" produce. */
module Calendar {
  import opened Common
  import opened Numbers

  /** LocalDate.MIN / LocalDate.MAX years. */
  const MinYear: int := -999_999_999
  const MaxYear: int := 999_999_999

  datatype Date = Date(year: int, month: int, day: int)
  datatype YearMonth = YearMonth(year: int, month: int)
  /** A LocalDateTime: a date and a time of day (nanoseconds since midnight). */
  datatype DateTime = DateTime(date: Date, nanoOfDay: nat)

  /** IsoChronology.isLeapYear. */
  predicate IsLeapYear(y: int) {
    y % 4 == 0 && (y % 100 != 0 || y % 400 == 0)
  }

  /** Month.length / YearMonth.lengthOfMonth. */
  function MonthLength(y: int, m: int): (n: int)
    requires 1 <= m <= 12
    ensures 28 <= n <= 31
    ensures n == 29 <==> m == 2 && IsLeapYear(y)
  {
    if m == 2 then (if IsLeapYear(y) then 29 else 28)
    else if m == 4 || m == 6 || m == 9 || m == 11 then 30
    else 31
  }

  predicate ValidDate(d: Date) {
    MinYear <= d.year <= MaxYear && 1 <= d.month <= 12 && 1 <= d.day <= MonthLength(d.year, d.month)
  }

  predicate ValidYearMonth(ym: YearMonth) {
    MinYear <= ym.year <= MaxYear && 1 <= ym.month <= 12
  }

  /** `!a.isAfter(b)`: a is on or before b. */
  predicate DateLe(a: Date, b: Date) {
    a.year < b.year
    || (a.year == b.year && (a.month < b.month || (a.month == b.month && a.day <= b.day)))
  }

  lemma DateLeTotal(a: Date, b: Date)
    ensures DateLe(a, b) || DateLe(b, a)
  {
  }

  lemma DateLeTransitive(a: Date, b: Date, c: Date)
    requires DateLe(a, b) && DateLe(b, c)
    ensures DateLe(a, c)
  {
  }

  /** YearMonth.atDay(1). */
  function FirstDay(ym: YearMonth): (d: Date)
    requires ValidYearMonth(ym)
    ensures ValidDate(d)
  {
    Date(ym.year, ym.month, 1)
  }

  /** YearMonth.atEndOfMonth(). */
  function LastDay(ym: YearMonth): (d: Date)
    requires ValidYearMonth(ym)
    ensures ValidDate(d)
  {
    Date(ym.year, ym.month, MonthLength(ym.year, ym.month))
  }

  /** A month's days are exactly the valid dates from its first to its last day. */
  lemma MonthSpan(ym: YearMonth, d: Date)
    requires ValidYearMonth(ym) && ValidDate(d)
    ensures (DateLe(FirstDay(ym), d) && DateLe(d, LastDay(ym)))
            <==> (d.year == ym.year && d.month == ym.month)
  {
  }

  /** The year field as ISO_LOCAL_DATE writes it: four digits, a '+' above
      9999, a '-' with at least four digits below zero. */
  function IsoYear(y: int): string {
    if 0 <= y <= 9999 then ZeroPad(Digits(y), 4)
    else if y > 9999 then "+" + Digits(y)
    else "-" + ZeroPad(Digits(-y), 4)
  }

  /** Two digits for a month or a day. */
  function TwoDigits(n: int): (r: string)
    requires 0 <= n <= 99
    ensures |r| == 2 && AllDigits(r) && DigitsValue(r) == n
  {
    DigitsRoundTrip(n);
    DigitsLength(n, 2);
    ZeroPad(Digits(n), 2)
  }

  /** LocalDate.format(DateTimeFormatter.ISO_LOCAL_DATE): yyyy-MM-dd. */
  function IsoDate(d: Date): string
    requires 1 <= d.month <= 12 && 1 <= d.day <= 31
  {
    IsoYear(d.year) + "-" + TwoDigits(d.month) + "-" + TwoDigits(d.day)
  }

  /** YearMonth.format(ofPattern("yyyy-MM")): 'yyyy' is the year of era
      (1 - year before year 1), four digits, a '+' above 9999. */
  function YearMonthText(ym: YearMonth): string
    requires 1 <= ym.month <= 12
  {
    var era := if ym.year >= 1 then ym.year else 1 - ym.year;
    (if era > 9999 then "+" + Digits(era) else ZeroPad(Digits(era), 4)) + "-" + TwoDigits(ym.month)
  }

  /** Reads a four-digit-year yyyy-MM-dd text back into a date. */
  function ParseIsoDate(s: string): (r: Option<Date>)
    ensures r.Some? ==> ValidDate(r.value)
  {
    if |s| == 10 && s[4] == '-' && s[7] == '-'
       && AllDigits(s[..4]) && AllDigits(s[5..7]) && AllDigits(s[8..])
    then
      var d := Date(DigitsValue(s[..4]), DigitsValue(s[5..7]), DigitsValue(s[8..]));
      if ValidDate(d) then Some(d) else None
    else None
  }

  /** For four-digit years, the ISO text of a date determines the date. */
  lemma IsoDateRoundTrip(d: Date)
    requires ValidDate(d) && 0 <= d.year <= 9999
    ensures |IsoDate(d)| == 10 && ParseIsoDate(IsoDate(d)) == Some(d)
  {
    DigitsRoundTrip(d.year);
    DigitsLength(d.year, 4);
    var y, m, dd := IsoYear(d.year), TwoDigits(d.month), TwoDigits(d.day);
    var s := IsoDate(d);
    assert s == y + "-" + m + "-" + dd;
    assert s[..4] == y;
    assert s[5..7] == m;
    assert s[8..] == dd;
  }
}
