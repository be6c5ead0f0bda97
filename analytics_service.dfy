/**
 * backend/app/services/analytics_service.py: read-only aggregates over the
 * transaction table. Only INCOME and EXPENSE rows are ever summed; a
 * transfer moves money between the user's own accounts and is neither.
 * `date.today()` is the parameter `today`.
 */
module AnalyticsService {
  import opened Common
  import opened Dates
  import opened Seqs
  import opened Schema

  /** `_get_period_range`: the week from its Monday, the year from January 1,
      and any other period string the month from its first day; every range
      ends today. */
  function PeriodRange(period: string, today: Date): (r: (Date, Date))
    requires Valid(today)
    ensures r.1 == today && Valid(r.0) && Le(r.0, today)
    ensures period == "week" ==> Ordinal(today) - Ordinal(r.0) == Weekday(today)
    ensures period == "year" ==> r.0 == Date(today.year, 1, 1)
    ensures period != "week" && period != "year" ==> r.0 == Date(today.year, today.month, 1)
  {
    if period == "week" then (WeekStart(today), today)
    else if period == "year" then (Date(today.year, 1, 1), today)
    else (Date(today.year, today.month, 1), today)
  }

  /** The week range starts on a Monday at most six days back. */
  lemma WeekRangeStartsMonday(today: Date)
    requires Valid(today)
    ensures Weekday(PeriodRange("week", today).0) == 0
    ensures 0 <= Ordinal(today) - Ordinal(PeriodRange("week", today).0) < 7
  {
    WeekStartIsMonday(today);
  }

  /** An `AnalyticsSummary`. */
  datatype Summary = Summary(totalIncome: int, totalExpense: int, balance: int)

  /** The user's rows of type `kind` dated within [from, to]. */
  predicate KindInRange(t: Txn, kind: TxnType, userId: string, from: Date, to: Date) {
    t.kind == kind && t.userId == userId && Le(from, t.date) && Le(t.date, to)
  }

  function KindIn(kind: TxnType, userId: string, from: Date, to: Date): Txn -> bool {
    (t: Txn) => KindInRange(t, kind, userId, from, to)
  }

  /** The totals of `get_summary` over [from, to]. */
  function Summarize(txns: seq<Txn>, userId: string, from: Date, to: Date): (r: Summary)
    ensures r.totalIncome == SumWhere(txns, KindIn(Income, userId, from, to), TxnAmount)
    ensures r.totalExpense == SumWhere(txns, KindIn(Expense, userId, from, to), TxnAmount)
    ensures r.balance == r.totalIncome - r.totalExpense
  {
    var income := SumWhere(txns, KindIn(Income, userId, from, to), TxnAmount);
    var expense := SumWhere(txns, KindIn(Expense, userId, from, to), TxnAmount);
    Summary(income, expense, income - expense)
  }

  /** `get_summary`: the totals over the period's range. */
  function GetSummary(txns: seq<Txn>, userId: string, period: string, today: Date): (r: Summary)
    requires Valid(today)
    ensures r == Summarize(txns, userId, PeriodRange(period, today).0, today)
    ensures r.balance == r.totalIncome - r.totalExpense
  {
    Summarize(txns, userId, PeriodRange(period, today).0, today)
  }

  /** A row that is a transfer, another user's, or outside the range changes no total. */
  lemma SummaryIgnores(txns: seq<Txn>, t: Txn, userId: string, from: Date, to: Date)
    requires t.kind == Transfer || t.userId != userId || !Le(from, t.date) || !Le(t.date, to)
    ensures Summarize(txns + [t], userId, from, to) == Summarize(txns, userId, from, to)
  {
    SumWhereAppend(txns, [t], KindIn(Income, userId, from, to), TxnAmount);
    SumWhereAppend(txns, [t], KindIn(Expense, userId, from, to), TxnAmount);
  }

  /** An INCOME row in range adds its amount to the income and to the balance. */
  lemma SummaryAddsIncome(txns: seq<Txn>, t: Txn, userId: string, from: Date, to: Date)
    requires KindInRange(t, Income, userId, from, to)
    ensures var before, after := Summarize(txns, userId, from, to), Summarize(txns + [t], userId, from, to);
            && after.totalIncome == before.totalIncome + t.amount
            && after.totalExpense == before.totalExpense
            && after.balance == before.balance + t.amount
  {
    SumWhereAppend(txns, [t], KindIn(Income, userId, from, to), TxnAmount);
    SumWhereAppend(txns, [t], KindIn(Expense, userId, from, to), TxnAmount);
  }

  /** An EXPENSE row in range adds its amount to the expense and takes it off the balance. */
  lemma SummaryAddsExpense(txns: seq<Txn>, t: Txn, userId: string, from: Date, to: Date)
    requires KindInRange(t, Expense, userId, from, to)
    ensures var before, after := Summarize(txns, userId, from, to), Summarize(txns + [t], userId, from, to);
            && after.totalIncome == before.totalIncome
            && after.totalExpense == before.totalExpense + t.amount
            && after.balance == before.balance - t.amount
  {
    SumWhereAppend(txns, [t], KindIn(Income, userId, from, to), TxnAmount);
    SumWhereAppend(txns, [t], KindIn(Expense, userId, from, to), TxnAmount);
  }

  /** With no INCOME or EXPENSE row of the user in range, every total is 0. */
  lemma SummaryEmpty(txns: seq<Txn>, userId: string, from: Date, to: Date)
    requires forall i :: 0 <= i < |txns| ==>
               txns[i].kind == Transfer || txns[i].userId != userId || !Le(from, txns[i].date) || !Le(txns[i].date, to)
    ensures Summarize(txns, userId, from, to) == Summary(0, 0, 0)
  {
    SumWhereNone(txns, KindIn(Income, userId, from, to), TxnAmount);
    SumWhereNone(txns, KindIn(Expense, userId, from, to), TxnAmount);
  }

  /** The GROUP BY key of `get_by_category`. */
  datatype GroupKey = GroupKey(name: string, color: Option<string>)

  /** A `CategoryBreakdown` without its percentage. */
  datatype Breakdown = Breakdown(name: string, color: Option<string>, amount: int)

  /** One row of the join of a transaction with its category. */
  datatype Joined = Joined(key: GroupKey, amount: int)

  /** The WHERE clause of `get_by_category`: the user's rows of type `kind`,
      after `dateFrom` and before `dateTo` when they are given. */
  predicate Selected(t: Txn, userId: string, kind: TxnType, dateFrom: Option<Date>, dateTo: Option<Date>) {
    && t.userId == userId && t.kind == kind
    && (dateFrom.Some? ==> Le(dateFrom.value, t.date))
    && (dateTo.Some? ==> Le(t.date, dateTo.value))
  }

  /** The inner join on `category_id == categories.id`: a row without a
      category, or whose category is missing, drops out. */
  function JoinRow(categories: seq<Category>, t: Txn): (r: seq<Joined>)
    ensures |r| <= 1
    ensures t.categoryId.None? ==> r == []
    ensures t.categoryId.Some? && t.categoryId.value !in Ids(categories, CategoryId) ==> r == []
    ensures t.categoryId.Some? && t.categoryId.value in Ids(categories, CategoryId) ==>
              exists k :: 0 <= k < |categories| && categories[k].id == t.categoryId.value
                          && r == [Joined(GroupKey(categories[k].name, categories[k].color), t.amount)]
  {
    match t.categoryId
    case None => []
    case Some(c) =>
      FindByIdSpec(categories, CategoryId, c);
      match FindById(categories, CategoryId, c)
      case None => []
      case Some(k) => [Joined(GroupKey(categories[k].name, categories[k].color), t.amount)]
  }

  /** The join rows of one transaction: none unless it is selected. */
  function JoinOne(categories: seq<Category>, userId: string, kind: TxnType,
                   dateFrom: Option<Date>, dateTo: Option<Date>, t: Txn): seq<Joined>
  {
    if Selected(t, userId, kind, dateFrom, dateTo) then JoinRow(categories, t) else []
  }

  /** The selected rows joined with their categories, in table order. */
  function Join(txns: seq<Txn>, categories: seq<Category>, userId: string, kind: TxnType,
                dateFrom: Option<Date>, dateTo: Option<Date>): seq<Joined>
    decreases |txns|
  {
    if txns == [] then []
    else JoinOne(categories, userId, kind, dateFrom, dateTo, txns[0]) + Join(txns[1..], categories, userId, kind, dateFrom, dateTo)
  }

  lemma {:induction false} JoinAppend(a: seq<Txn>, b: seq<Txn>, categories: seq<Category>, userId: string,
                                      kind: TxnType, dateFrom: Option<Date>, dateTo: Option<Date>)
    ensures Join(a + b, categories, userId, kind, dateFrom, dateTo)
            == Join(a, categories, userId, kind, dateFrom, dateTo) + Join(b, categories, userId, kind, dateFrom, dateTo)
    decreases |a|
  {
    if a == [] {
      assert a + b == b;
    } else {
      assert (a + b)[1..] == a[1..] + b;
      JoinAppend(a[1..], b, categories, userId, kind, dateFrom, dateTo);
      var head := JoinOne(categories, userId, kind, dateFrom, dateTo, a[0]);
      var tailA := Join(a[1..], categories, userId, kind, dateFrom, dateTo);
      var all := Join(b, categories, userId, kind, dateFrom, dateTo);
      assert head + (tailA + all) == (head + tailA) + all;
    }
  }

  function KeysOf(joined: seq<Joined>): seq<GroupKey> {
    seq(|joined|, i requires 0 <= i < |joined| => joined[i].key)
  }

  function JoinedAmount(j: Joined): int {
    j.amount
  }

  function HasKey(k: GroupKey): Joined -> bool {
    (j: Joined) => j.key == k
  }

  /** SUM(amount) of one group. */
  function GroupTotal(joined: seq<Joined>, k: GroupKey): int {
    SumWhere(joined, HasKey(k), JoinedAmount)
  }

  /** ORDER BY sum(amount) DESC on group keys. */
  function LargerFirst(joined: seq<Joined>): (GroupKey, GroupKey) -> bool {
    (a: GroupKey, b: GroupKey) => GroupTotal(joined, b) <= GroupTotal(joined, a)
  }

  lemma LargerFirstOrders(joined: seq<Joined>)
    ensures TotalPreorder(LargerFirst(joined))
  {
  }

  function RowKey(b: Breakdown): GroupKey {
    GroupKey(b.name, b.color)
  }

  function RowKeys(rows: seq<Breakdown>): seq<GroupKey> {
    seq(|rows|, i requires 0 <= i < |rows| => RowKey(rows[i]))
  }

  /** GROUP BY (name, color) with SUM(amount), largest sum first: one row
      per group key of the join, each with that group's total. */
  function Breakdowns(joined: seq<Joined>): (r: seq<Breakdown>)
    ensures Distinct(RowKeys(r))
    ensures forall k :: k in RowKeys(r) <==> k in KeysOf(joined)
    ensures forall i :: 0 <= i < |r| ==> r[i].amount == GroupTotal(joined, RowKey(r[i]))
    ensures forall i, j :: 0 <= i < j < |r| ==> r[j].amount <= r[i].amount
  {
    LargerFirstOrders(joined);
    var groups := Dedup(KeysOf(joined));
    var keys := SortBy(groups, LargerFirst(joined));
    DistinctPermutation(groups, keys);
    SameMembers(groups, keys);
    var r := seq(|keys|, i requires 0 <= i < |keys| => Breakdown(keys[i].name, keys[i].color, GroupTotal(joined, keys[i])));
    assert RowKeys(r) == keys;
    r
  }

  /** `get_by_category`. */
  function ByCategory(txns: seq<Txn>, categories: seq<Category>, userId: string, kind: TxnType,
                      dateFrom: Option<Date>, dateTo: Option<Date>): (r: seq<Breakdown>)
    ensures Distinct(RowKeys(r))
    ensures forall k :: k in RowKeys(r) <==> k in KeysOf(Join(txns, categories, userId, kind, dateFrom, dateTo))
    ensures forall i :: 0 <= i < |r| ==>
              r[i].amount == GroupTotal(Join(txns, categories, userId, kind, dateFrom, dateTo), RowKey(r[i]))
    ensures forall i, j :: 0 <= i < j < |r| ==> r[j].amount <= r[i].amount
  {
    Breakdowns(Join(txns, categories, userId, kind, dateFrom, dateTo))
  }

  /** A row that is not selected, or has no category, leaves the breakdown as it was. */
  lemma ByCategoryIgnores(txns: seq<Txn>, t: Txn, categories: seq<Category>, userId: string, kind: TxnType,
                          dateFrom: Option<Date>, dateTo: Option<Date>)
    requires !Selected(t, userId, kind, dateFrom, dateTo) || t.categoryId.None?
    ensures ByCategory(txns + [t], categories, userId, kind, dateFrom, dateTo)
            == ByCategory(txns, categories, userId, kind, dateFrom, dateTo)
  {
    JoinAppend(txns, [t], categories, userId, kind, dateFrom, dateTo);
    assert Join([t], categories, userId, kind, dateFrom, dateTo) == [];
    assert Join(txns, categories, userId, kind, dateFrom, dateTo) + [] == Join(txns, categories, userId, kind, dateFrom, dateTo);
  }

  /** A `DailyTotal`, with the day as a date rather than its string. */
  datatype DailyTotal = DailyTotal(day: Date, income: int, expense: int)

  /** The WHERE clause of `get_daily_totals`: the user's INCOME and EXPENSE
      rows of that month and year. */
  predicate InMonth(t: Txn, userId: string, month: int, year: int) {
    t.userId == userId && t.date.month == month && t.date.year == year && (t.kind == Income || t.kind == Expense)
  }

  function InMonthOf(userId: string, month: int, year: int): Txn -> bool {
    (t: Txn) => InMonth(t, userId, month, year)
  }

  function DatesOf(rows: seq<Txn>): seq<Date> {
    seq(|rows|, i requires 0 <= i < |rows| => rows[i].date)
  }

  /** One day's rows of type `kind`. */
  function OnDay(kind: TxnType, userId: string, month: int, year: int, day: Date): Txn -> bool {
    (t: Txn) => InMonth(t, userId, month, year) && t.date == day && t.kind == kind
  }

  /** The CASE-sum of one type over one day's group. */
  function DaySum(txns: seq<Txn>, kind: TxnType, userId: string, month: int, year: int, day: Date): int {
    SumWhere(txns, OnDay(kind, userId, month, year, day), TxnAmount)
  }

  function Chronological(): (Date, Date) -> bool {
    (a: Date, b: Date) => Le(a, b)
  }

  lemma ChronologicalOrders()
    ensures TotalPreorder(Chronological())
  {
  }

  function Days(r: seq<DailyTotal>): seq<Date> {
    seq(|r|, i requires 0 <= i < |r| => r[i].day)
  }

  /** The distinct dates of the selected rows. */
  function MonthDates(txns: seq<Txn>, userId: string, month: int, year: int): (r: seq<Date>)
    ensures Distinct(r)
    ensures forall d :: d in r <==> exists t :: t in txns && InMonth(t, userId, month, year) && t.date == d
  {
    var rows := Filter(txns, InMonthOf(userId, month, year));
    DatesOfMembers(rows);
    Dedup(DatesOf(rows))
  }

  lemma DatesOfMembers(rows: seq<Txn>)
    ensures forall d :: d in DatesOf(rows) <==> exists t :: t in rows && t.date == d
  {
    forall d | d in DatesOf(rows) ensures exists t :: t in rows && t.date == d {
      var i :| 0 <= i < |rows| && DatesOf(rows)[i] == d;
      assert rows[i] in rows;
    }
    forall d | exists t :: t in rows && t.date == d ensures d in DatesOf(rows) {
      var t :| t in rows && t.date == d;
      var i :| 0 <= i < |rows| && rows[i] == t;
      assert DatesOf(rows)[i] == d;
    }
  }

  /** One entry per given day, with that day's sums. */
  function TotalsOn(txns: seq<Txn>, userId: string, month: int, year: int, days: seq<Date>): (r: seq<DailyTotal>)
    ensures Days(r) == days
    ensures forall i :: 0 <= i < |r| ==>
              r[i].income == DaySum(txns, Income, userId, month, year, r[i].day)
              && r[i].expense == DaySum(txns, Expense, userId, month, year, r[i].day)
  {
    var r := seq(|days|, i requires 0 <= i < |days| =>
                   DailyTotal(days[i], DaySum(txns, Income, userId, month, year, days[i]),
                              DaySum(txns, Expense, userId, month, year, days[i])));
    assert Days(r) == days;
    r
  }

  /** A row outside the user's INCOME and EXPENSE rows of the month adds
      nothing to any day's sums. */
  lemma TotalsOnIgnores(txns: seq<Txn>, t: Txn, userId: string, month: int, year: int, days: seq<Date>)
    requires !InMonth(t, userId, month, year)
    ensures TotalsOn(txns + [t], userId, month, year, days) == TotalsOn(txns, userId, month, year, days)
  {
    var r1, r0 := TotalsOn(txns + [t], userId, month, year, days), TotalsOn(txns, userId, month, year, days);
    forall i | 0 <= i < |days| ensures r1[i] == r0[i] {
      assert Days(r1)[i] == days[i] == Days(r0)[i];
      SumWhereAppend(txns, [t], OnDay(Income, userId, month, year, days[i]), TxnAmount);
      SumWhereAppend(txns, [t], OnDay(Expense, userId, month, year, days[i]), TxnAmount);
      SumWhereNone([t], OnDay(Income, userId, month, year, days[i]), TxnAmount);
      SumWhereNone([t], OnDay(Expense, userId, month, year, days[i]), TxnAmount);
    }
  }

  /** `get_daily_totals`: one entry per date that has a selected row,
      strictly ascending, with that day's income and expense sums. */
  function DailyTotals(txns: seq<Txn>, userId: string, month: int, year: int): (r: seq<DailyTotal>)
    ensures forall i, j :: 0 <= i < j < |r| ==> Lt(r[i].day, r[j].day)
    ensures forall d :: d in Days(r) <==> exists t :: t in txns && InMonth(t, userId, month, year) && t.date == d
    ensures forall i :: 0 <= i < |r| ==>
              r[i].income == DaySum(txns, Income, userId, month, year, r[i].day)
              && r[i].expense == DaySum(txns, Expense, userId, month, year, r[i].day)
  {
    ChronologicalOrders();
    var dates := MonthDates(txns, userId, month, year);
    var days := SortBy(dates, Chronological());
    DistinctPermutation(dates, days);
    SameMembers(dates, days);
    var r := TotalsOn(txns, userId, month, year, days);
    assert forall i :: 0 <= i < |r| ==> r[i].day == days[i] by {
      forall i | 0 <= i < |r| ensures r[i].day == days[i] {
        assert Days(r)[i] == r[i].day;
      }
    }
    r
  }

  /** A TRANSFER row, another user's row or a row of another month leaves
      the daily totals exactly as they were: no new day, no changed sum. */
  lemma DailyTotalsIgnores(txns: seq<Txn>, t: Txn, userId: string, month: int, year: int)
    requires !InMonth(t, userId, month, year)
    ensures DailyTotals(txns + [t], userId, month, year) == DailyTotals(txns, userId, month, year)
  {
    FilterAppend(txns, [t], InMonthOf(userId, month, year));
    FilterNone([t], InMonthOf(userId, month, year));
    assert Filter(txns + [t], InMonthOf(userId, month, year)) == Filter(txns, InMonthOf(userId, month, year));
    assert MonthDates(txns + [t], userId, month, year) == MonthDates(txns, userId, month, year);
    var days := SortBy(MonthDates(txns, userId, month, year), Chronological());
    TotalsOnIgnores(txns, t, userId, month, year, days);
  }
}
