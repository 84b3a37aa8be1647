/** DashboardService: sales statistics for a day, a month or a year. The
    period names an inclusive calendar range; the customer transactions dated
    inside it are counted and the quantities of their lines are summed. */
module DashboardService {
  import opened Common
  import opened Strings
  import opened Numbers
  import opened Int32
  import opened Calendar
  import opened Entities

  /** What LocalDate.parse and YearMonth.parse make of the date argument:
      the model takes the parsers' results from the caller. */
  datatype Parsed = Parsed(date: Result<Date>, yearMonth: Result<YearMonth>)

  /** Parser results are valid calendar values. */
  predicate WellParsed(p: Parsed) {
    (p.date.Ok? ==> ValidDate(p.date.value)) && (p.yearMonth.Ok? ==> ValidYearMonth(p.yearMonth.value))
  }

  /** The range of a period, inclusive at both ends, and its label. */
  datatype Range = Range(startDate: Date, endDate: Date, dateRange: string)

  /** DashboardStatsDTO without its floating-point order value. */
  datatype Stats = Stats(totalTransactions: int, totalQuantityTransacted: int, period: Option<string>, dateRange: string)

  const InvalidPeriod := "Invalid period. Use 'daily', 'monthly', or 'yearly'"

  /** Integer.parseInt: Long.parseLong's syntax within the int range. */
  function ParseInt(s: string): (r: Result<int>)
    ensures r.Ok? ==> IsInt32(r.value) && ParseLong(s) == Some(r.value)
    ensures r.Err? ==> r.error == NumberFormat(s)
  {
    match ParseLong(s)
    case Some(n) => if IsInt32(n) then Ok(n) else Err(NumberFormat(s))
    case None => Err(NumberFormat(s))
  }

  /** The switch of getDashboardStats: `date` is used when it is non-null
      and non-empty, today's date otherwise. */
  function PeriodRange(period: Option<string>, date: Option<string>, parsed: Parsed, today: Date): (r: Result<Range>)
    requires WellParsed(parsed) && ValidDate(today)
    ensures period.None? ==> r == Err(NullPointer)
    ensures period.Some? && Lower(period.value) !in {"daily", "monthly", "yearly"}
            ==> r == Err(IllegalArgument(InvalidPeriod))
    ensures r.Ok? ==> period.Some? && Lower(period.value) in {"daily", "monthly", "yearly"}
    ensures r.Ok? ==> ValidDate(r.value.startDate) && ValidDate(r.value.endDate) && DateLe(r.value.startDate, r.value.endDate)
  {
    if period.None? then Err(NullPointer)
    else
      var p := Lower(period.value);
      var given := date.Some? && date.value != [];
      if p == "daily" then
        if given then
          match parsed.date
          case Err(e) => Err(e)
          case Ok(d) => Ok(Range(d, d, IsoDate(d)))
        else Ok(Range(today, today, IsoDate(today)))
      else if p == "monthly" then
        var ym := if given then parsed.yearMonth else Ok(YearMonth(today.year, today.month));
        match ym
        case Err(e) => Err(e)
        case Ok(m) => Ok(Range(FirstDay(m), LastDay(m), YearMonthText(m)))
      else if p == "yearly" then
        var year := if given then ParseInt(date.value) else Ok(today.year);
        match year
        case Err(e) => Err(e)
        case Ok(y) =>
          if y < MinYear || MaxYear < y then Err(DateTimeRange)
          else Ok(Range(Date(y, 1, 1), Date(y, 12, 31), IntToString(y)))
      else Err(IllegalArgument(InvalidPeriod))
  }

  /** The three names are recognised in any letter case. */
  lemma PeriodNamesIgnoreCase(period: string, date: Option<string>, parsed: Parsed, today: Date)
    requires WellParsed(parsed) && ValidDate(today)
    ensures PeriodRange(Some(period), date, parsed, today) == PeriodRange(Some(Lower(period)), date, parsed, today)
  {
    LowerIdempotent(period);
  }

  /** Daily: one day, the given date or today, labelled yyyy-MM-dd. */
  lemma DailyRange(period: string, date: Option<string>, parsed: Parsed, today: Date)
    requires WellParsed(parsed) && ValidDate(today) && Lower(period) == "daily"
    requires date.None? || date.value == [] || parsed.date.Ok?
    ensures var r := PeriodRange(Some(period), date, parsed, today);
            var d := if date.Some? && date.value != [] then parsed.date.value else today;
            r == Ok(Range(d, d, IsoDate(d)))
  {
  }

  /** Monthly: from day 1 to the month's last day, so a valid date falls in
      the range exactly when it lies in that month. */
  lemma MonthlyRange(period: string, date: Option<string>, parsed: Parsed, today: Date, d: Date)
    requires WellParsed(parsed) && ValidDate(today) && Lower(period) == "monthly"
    requires date.None? || date.value == [] || parsed.yearMonth.Ok?
    requires ValidDate(d)
    ensures var ym := if date.Some? && date.value != [] then parsed.yearMonth.value else YearMonth(today.year, today.month);
            var r := PeriodRange(Some(period), date, parsed, today);
            && r == Ok(Range(Date(ym.year, ym.month, 1), Date(ym.year, ym.month, MonthLength(ym.year, ym.month)),
                             YearMonthText(ym)))
            && (DateLe(r.value.startDate, d) && DateLe(d, r.value.endDate) <==> d.year == ym.year && d.month == ym.month)
  {
    var ym := if date.Some? && date.value != [] then parsed.yearMonth.value else YearMonth(today.year, today.month);
    MonthSpan(ym, d);
  }

  /** Yearly: January 1 to December 31, labelled with the year's digits, so
      a date falls in the range exactly when it has that year. */
  lemma YearlyRange(period: string, date: Option<string>, parsed: Parsed, today: Date, d: Date)
    requires WellParsed(parsed) && ValidDate(today) && Lower(period) == "yearly"
    requires date.Some? && date.value != [] ==> ParseInt(date.value).Ok?
    requires ValidDate(d)
    ensures var y := if date.Some? && date.value != [] then ParseInt(date.value).value else today.year;
            var r := PeriodRange(Some(period), date, parsed, today);
            && (y < MinYear || MaxYear < y ==> r == Err(DateTimeRange))
            && (MinYear <= y <= MaxYear ==>
                  && r == Ok(Range(Date(y, 1, 1), Date(y, 12, 31), IntToString(y)))
                  && (DateLe(r.value.startDate, d) && DateLe(d, r.value.endDate) <==> d.year == y))
  {
  }

  /** The stream filter's test: a date, on or after the startDate and on or
      before the end. */
  predicate InRange(t: CustomerTransaction, startDate: Date, endDate: Date) {
    t.transactionDate.Some? && DateLe(startDate, t.transactionDate.value.date) && DateLe(t.transactionDate.value.date, endDate)
  }

  /** `.filter(...).toList()`: the transactions in range, in list order. */
  function Filtered(ts: seq<CustomerTransaction>, startDate: Date, endDate: Date): (r: seq<CustomerTransaction>)
    ensures |r| <= |ts|
    ensures forall t :: t in r <==> t in ts && InRange(t, startDate, endDate)
  {
    if ts == [] then []
    else if InRange(ts[0], startDate, endDate) then [ts[0]] + Filtered(ts[1..], startDate, endDate)
    else Filtered(ts[1..], startDate, endDate)
  }

  /** Every transaction in range is kept as often as it occurs, and no
      other is kept. */
  lemma {:induction false} FilteredCounts(ts: seq<CustomerTransaction>, startDate: Date, endDate: Date, t: CustomerTransaction)
    ensures multiset(Filtered(ts, startDate, endDate))[t] == if InRange(t, startDate, endDate) then multiset(ts)[t] else 0
  {
    if ts != [] {
      FilteredCounts(ts[1..], startDate, endDate, t);
      assert ts == [ts[0]] + ts[1..];
      assert multiset(ts) == multiset{ts[0]} + multiset(ts[1..]);
    }
  }

  /** Filtering a concatenation filters each part. */
  lemma {:induction false} FilteredConcat(a: seq<CustomerTransaction>, b: seq<CustomerTransaction>, startDate: Date, endDate: Date)
    ensures Filtered(a + b, startDate, endDate) == Filtered(a, startDate, endDate) + Filtered(b, startDate, endDate)
  {
    if a == [] {
      assert a + b == b;
    } else {
      assert (a + b)[0] == a[0];
      assert (a + b)[1..] == a[1..] + b;
      FilteredConcat(a[1..], b, startDate, endDate);
      if InRange(a[0], startDate, endDate) {
        assert [a[0]] + (Filtered(a[1..], startDate, endDate) + Filtered(b, startDate, endDate))
               == ([a[0]] + Filtered(a[1..], startDate, endDate)) + Filtered(b, startDate, endDate);
      }
    }
  }

  /** The quantities of a sale's lines, a null quantity counting as 0. */
  function LineQuantities(lines: seq<Sold>): (r: seq<int>)
    ensures |r| == |lines|
    ensures forall j :: 0 <= j < |lines| ==> r[j] == lines[j].quantity.GetOr(0)
  {
    if lines == [] then [] else [lines[0].quantity.GetOr(0)] + LineQuantities(lines[1..])
  }

  /** `.flatMap(t -> t.getItems().stream()).mapToInt(...)`: a transaction
      with a null list of lines throws NullPointerException. */
  function AllQuantities(ts: seq<CustomerTransaction>): (r: Result<seq<int>>)
    ensures r.Err? <==> exists i :: 0 <= i < |ts| && ts[i].items.None?
    ensures r.Err? ==> r.error == NullPointer
  {
    if ts == [] then Ok([])
    else if ts[0].items.None? then Err(NullPointer)
    else match AllQuantities(ts[1..])
      case Err(e) => Err(e)
      case Ok(rest) => Ok(LineQuantities(ts[0].items.value) + rest)
  }

  /** IntStream.sum: a left-to-right sum in Java ints, wrapping at each step. */
  function JavaSum(acc: int, xs: seq<int>): int
    decreases |xs|
  {
    if xs == [] then acc else JavaSum(Wrap32(acc + xs[0]), xs[1..])
  }

  /** The mathematical sum. */
  function Sum(xs: seq<int>): int
    decreases |xs|
  {
    if xs == [] then 0 else xs[0] + Sum(xs[1..])
  }

  /** The step-by-step Java sum is the mathematical sum, wrapped once. */
  lemma {:induction false} JavaSumWraps(acc: int, xs: seq<int>)
    requires IsInt32(acc)
    ensures JavaSum(acc, xs) == Wrap32(acc + Sum(xs))
    decreases |xs|
  {
    if xs != [] {
      JavaSumWraps(Wrap32(acc + xs[0]), xs[1..]);
      WrapAbsorbs(acc + xs[0], Sum(xs[1..]));
    }
  }

  /** totalQuantityTransacted of the filtered transactions. */
  function TotalQuantity(ts: seq<CustomerTransaction>): (r: Result<int>)
    ensures r.Err? <==> AllQuantities(ts).Err?
    ensures r.Ok? ==> r.value == Wrap32(Sum(AllQuantities(ts).value))
  {
    match AllQuantities(ts)
    case Err(e) => Err(e)
    case Ok(qs) =>
      JavaSumWraps(0, qs);
      Ok(JavaSum(0, qs))
  }

  /** getDashboardStats over the rows findAll returned. */
  function DashboardStats(transactions: seq<CustomerTransaction>, period: Option<string>, date: Option<string>,
                          parsed: Parsed, today: Date): (r: Result<Stats>)
    requires WellParsed(parsed) && ValidDate(today)
    ensures PeriodRange(period, date, parsed, today).Err? ==> r == Err(PeriodRange(period, date, parsed, today).error)
    ensures r.Ok? ==>
              var range := PeriodRange(period, date, parsed, today).value;
              var kept := Filtered(transactions, range.startDate, range.endDate);
              && r.value.totalTransactions == |kept|
              && AllQuantities(kept).Ok?
              && r.value.totalQuantityTransacted == Wrap32(Sum(AllQuantities(kept).value))
              && r.value.period == period && r.value.dateRange == range.dateRange
    ensures PeriodRange(period, date, parsed, today).Ok? ==>
              var range := PeriodRange(period, date, parsed, today).value;
              && (r.Ok? <==> AllQuantities(Filtered(transactions, range.startDate, range.endDate)).Ok?)
              && (r.Ok? || r == Err(NullPointer))
  {
    match PeriodRange(period, date, parsed, today)
    case Err(e) => Err(e)
    case Ok(range) =>
      var kept := Filtered(transactions, range.startDate, range.endDate);
      match TotalQuantity(kept)
      case Err(e) => Err(e)
      case Ok(q) => Ok(Stats(|kept|, q, period, range.dateRange))
  }

  /** A null list of lines fails the sum only when its transaction is in
      range: out-of-range transactions are never looked into. */
  lemma NullLinesOnlyMatterInRange(transactions: seq<CustomerTransaction>, period: Option<string>, date: Option<string>,
                                   parsed: Parsed, today: Date)
    requires WellParsed(parsed) && ValidDate(today) && PeriodRange(period, date, parsed, today).Ok?
    ensures var range := PeriodRange(period, date, parsed, today).value;
            DashboardStats(transactions, period, date, parsed, today) == Err(NullPointer)
            <==> exists t :: t in transactions && InRange(t, range.startDate, range.endDate) && t.items.None?
  {
    var range := PeriodRange(period, date, parsed, today).value;
    var kept := Filtered(transactions, range.startDate, range.endDate);
    if exists t :: t in transactions && InRange(t, range.startDate, range.endDate) && t.items.None? {
      var t :| t in transactions && InRange(t, range.startDate, range.endDate) && t.items.None?;
      assert t in kept;
      var i :| 0 <= i < |kept| && kept[i] == t;
      assert AllQuantities(kept).Err?;
    } else {
      forall i | 0 <= i < |kept| ensures kept[i].items.Some? {
        assert kept[i] in kept;
      }
    }
  }

  /** The date argument is looked at only when it is non-null and
      non-empty. */
  lemma AbsentDateIgnoresParsers(transactions: seq<CustomerTransaction>, period: Option<string>, p1: Parsed, p2: Parsed,
                                 today: Date)
    requires WellParsed(p1) && WellParsed(p2) && ValidDate(today)
    ensures DashboardStats(transactions, period, None, p1, today) == DashboardStats(transactions, period, None, p2, today)
  {
  }

  /** The parser results of an absent date argument, never consulted. */
  const NoDate := Parsed(Err(DateTimeParse), Err(DateTimeParse))

  /** getTodayStats: getDashboardStats("daily", null), today's transactions. */
  function TodayStats(transactions: seq<CustomerTransaction>, today: Date): Result<Stats>
    requires ValidDate(today)
  {
    DashboardStats(transactions, Some("daily"), None, NoDate, today)
  }

  /** getCurrentMonthStats: getDashboardStats("monthly", null). */
  function CurrentMonthStats(transactions: seq<CustomerTransaction>, today: Date): Result<Stats>
    requires ValidDate(today)
  {
    DashboardStats(transactions, Some("monthly"), None, NoDate, today)
  }

  /** getCurrentYearStats: getDashboardStats("yearly", null). */
  function CurrentYearStats(transactions: seq<CustomerTransaction>, today: Date): Result<Stats>
    requires ValidDate(today)
  {
    DashboardStats(transactions, Some("yearly"), None, NoDate, today)
  }

  /** Each shortcut is getDashboardStats with its period and no date,
      whatever the parsers would have made of a date. */
  lemma ShortcutsTakeNoDate(transactions: seq<CustomerTransaction>, today: Date, parsed: Parsed)
    requires ValidDate(today) && WellParsed(parsed)
    ensures TodayStats(transactions, today) == DashboardStats(transactions, Some("daily"), None, parsed, today)
    ensures CurrentMonthStats(transactions, today) == DashboardStats(transactions, Some("monthly"), None, parsed, today)
    ensures CurrentYearStats(transactions, today) == DashboardStats(transactions, Some("yearly"), None, parsed, today)
  {
    AbsentDateIgnoresParsers(transactions, Some("daily"), NoDate, parsed, today);
    AbsentDateIgnoresParsers(transactions, Some("monthly"), NoDate, parsed, today);
    AbsentDateIgnoresParsers(transactions, Some("yearly"), NoDate, parsed, today);
  }

  /** getTodayStats covers today's date. */
  lemma TodayRange(transactions: seq<CustomerTransaction>, today: Date)
    requires ValidDate(today)
    ensures TodayStats(transactions, today).Ok? ==> TodayStats(transactions, today).value.dateRange == IsoDate(today)
  {
    DailyRange("daily", None, NoDate, today);
  }

  /** getCurrentMonthStats covers this month. */
  lemma CurrentMonthRange(transactions: seq<CustomerTransaction>, today: Date)
    requires ValidDate(today)
    ensures CurrentMonthStats(transactions, today).Ok? ==>
              CurrentMonthStats(transactions, today).value.dateRange == YearMonthText(YearMonth(today.year, today.month))
  {
    assert Lower("monthly") == "monthly";
  }

  /** getCurrentYearStats covers this year. */
  lemma CurrentYearRange(transactions: seq<CustomerTransaction>, today: Date)
    requires ValidDate(today)
    ensures CurrentYearStats(transactions, today).Ok? ==>
              CurrentYearStats(transactions, today).value.dateRange == IntToString(today.year)
  {
    assert Lower("yearly") == "yearly";
  }
}
