/** The values the dashboard derives from the transaction list: the date-window filter with
    its descending date sort, the balance and the period sums, the per-category expense
    breakdown with its top entry, and the category shown for a transaction. */
module LedgerView {
  import opened Text
  import opened Calendar
  import opened Domain
  import opened StableSort
  import Constants

  // ---------------------------------------------------------------------------------------
  // The date window

  /** The longest prefix of `s` made of decimal digits. */
  function DigitPrefix(s: string): (p: string)
    ensures |p| <= |s| && p == s[..|p|] && AllDigits(p)
    ensures |p| < |s| ==> !IsDigit(s[|p|])
  {
    if s != [] && IsDigit(s[0]) then [s[0]] + DigitPrefix(s[1..]) else []
  }

  /** `parseInt(s)` with the default radix: leading whitespace is skipped, one sign is read,
      then the longest run of decimal digits; `None` stands for `NaN` (no digits). */
  function ParseInt(s: string): (r: Option<int>)
  {
    var u := TrimStart(s);
    var neg := u != [] && u[0] == '-';
    var body := if u != [] && (u[0] == '-' || u[0] == '+') then u[1..] else u;
    var digits := DigitPrefix(body);
    if digits == [] then None
    else
      var n: int := ReadDigits(0, digits);
      Some(if neg then -n else n)
  }

  /** The timestamp bounds of the window selector `sel` of the dashboard, computed exactly as
      the app does: "today" runs from 00:00:00.000 to 23:59:59.999 of the local day `today`,
      and so on. `None`: the selector keeps every transaction. */
  function WindowBounds(sel: string, today: Date): Option<(int, int)> {
    if sel == "all" then None
    else
      var endOfToday := EndOfDay(today);
      if sel == "today" then Some((StartOfDay(today), endOfToday))
      else if sel == "current_month" then
        Some((MakeDate(MakeDay(today.year, today.month - 1, 1), 0), endOfToday))
      else if sel == "last_month" then
        Some((MakeDate(MakeDay(today.year, today.month - 2, 1), 0),
              MakeDate(MakeDay(today.year, today.month - 1, 0), MsPerDay - 1)))
      else DayCountBounds(sel, today)
  }

  /** Any other selector is read with `parseInt`: `n` days back from the end of today, or no
      bound at all when it is not a number. */
  function DayCountBounds(sel: string, today: Date): Option<(int, int)> {
    match ParseInt(sel)
    case Some(days) =>
      Some((MakeDate(MakeDay(today.year, today.month - 1, today.day - days), MsPerDay - 1), EndOfDay(today)))
    case None => None
  }

  /** The filter predicate of the dashboard: the transaction's date is taken at noon and
      compared with the window's bounds. */
  function InWindow(sel: string, today: Date, t: Transaction): bool {
    match WindowBounds(sel, today)
    case None => true
    case Some(b) => b.0 <= NoonOf(t.date) <= b.1
  }

  /** `transactions.filter(...)`: the transactions inside the window, in list order. */
  function KeepInWindow(ts: seq<Transaction>, sel: string, today: Date): (r: seq<Transaction>)
    ensures |r| <= |ts|
    ensures forall x :: x in r <==> x in ts && InWindow(sel, today, x)
    ensures multiset(r) <= multiset(ts)
    decreases |ts|
  {
    if ts == [] then []
    else
      assert ts == [ts[0]] + ts[1..];
      (if InWindow(sel, today, ts[0]) then [ts[0]] else []) + KeepInWindow(ts[1..], sel, today)
  }

  /** The sort key of `new Date(t.date).getTime()`: the date's day number. */
  function DateKey(t: Transaction): int {
    DayNumber(t.date)
  }

  /** `filteredTransactions`: the window's transactions, latest date first, ties in list order. */
  function Filtered(ts: seq<Transaction>, sel: string, today: Date): seq<Transaction> {
    Sort(KeepInWindow(ts, sel, today), DateKey)
  }

  // ---------------------------------------------------------------------------------------
  // Sums

  /** `reduce((acc, t) => acc + t.amount, acc)`. */
  function AddAmounts(acc: int, s: seq<Transaction>): int
    decreases |s|
  {
    if s == [] then acc else AddAmounts(acc + s[0].amount, s[1..])
  }

  /** `reduce((acc, item) => item.type === INCOME ? acc + item.amount : acc - item.amount, acc)`. */
  function Balance(acc: int, s: seq<Transaction>): int
    decreases |s|
  {
    if s == [] then acc
    else Balance(if s[0].kind == Income then acc + s[0].amount else acc - s[0].amount, s[1..])
  }

  /** `totalBalance`, over all transactions whatever the window. */
  function TotalBalance(ts: seq<Transaction>): int {
    Balance(0, ts)
  }

  /** The transactions of kind `k`, in order. */
  function OfKind(s: seq<Transaction>, k: Kind): (r: seq<Transaction>)
    ensures forall x :: x in r <==> x in s && x.kind == k
    decreases |s|
  {
    if s == [] then []
    else (if s[0].kind == k then [s[0]] else []) + OfKind(s[1..], k)
  }

  /** `periodIncome`. */
  function PeriodIncome(ts: seq<Transaction>, sel: string, today: Date): int {
    AddAmounts(0, OfKind(Filtered(ts, sel, today), Income))
  }

  /** `periodExpense`. */
  function PeriodExpense(ts: seq<Transaction>, sel: string, today: Date): int {
    AddAmounts(0, OfKind(Filtered(ts, sel, today), Expense))
  }

  function Amount(t: Transaction): int { t.amount }
  function IncomeAmount(t: Transaction): int { if t.kind == Income then t.amount else 0 }
  function ExpenseAmount(t: Transaction): int { if t.kind == Expense then t.amount else 0 }

  // ---------------------------------------------------------------------------------------
  // The expense breakdown

  /** One entry of `expensesByCategory`: the category key, its period total and the category. */
  datatype Slice = Slice(key: string, total: int, cat: Category)

  function SliceTotal(s: Slice): int { s.total }

  /** The expense transactions of category `key`. */
  function ExpensesOf(s: seq<Transaction>, key: string): (r: seq<Transaction>)
    ensures forall x :: x in r <==> x in s && x.kind == Expense && x.category == key
    decreases |s|
  {
    if s == [] then []
    else (if s[0].kind == Expense && s[0].category == key then [s[0]] else []) + ExpensesOf(s[1..], key)
  }

  /** The period total of category `key`: its expenses summed with `reduce` from 0. */
  function CategoryTotal(filtered: seq<Transaction>, key: string): int {
    AddAmounts(0, ExpensesOf(filtered, key))
  }

  /** The expense categories of the table, in key order, each with its total. */
  function ExpenseSlices(cats: CategoryTable, filtered: seq<Transaction>): seq<Slice>
    decreases |cats|
  {
    if cats == [] then []
    else
      (if cats[0].cat.kind == Expense
       then [Slice(cats[0].key, CategoryTotal(filtered, cats[0].key), cats[0].cat)]
       else [])
      + ExpenseSlices(cats[1..], filtered)
  }

  /** The slices with a positive total. */
  function PositiveSlices(s: seq<Slice>): (r: seq<Slice>)
    ensures forall x :: x in r <==> x in s && x.total > 0
    decreases |s|
  {
    if s == [] then []
    else (if s[0].total > 0 then [s[0]] else []) + PositiveSlices(s[1..])
  }

  /** `expensesByCategory`. */
  function ExpensesByCategory(cats: CategoryTable, filtered: seq<Transaction>): seq<Slice> {
    Sort(PositiveSlices(ExpenseSlices(cats, filtered)), SliceTotal)
  }

  /** `topExpense`: the first entry of the breakdown, or `null`. */
  function TopExpense(cats: CategoryTable, filtered: seq<Transaction>): Option<Slice> {
    var b := ExpensesByCategory(cats, filtered);
    if |b| > 0 then Some(b[0]) else None
  }

  // ---------------------------------------------------------------------------------------
  // The category shown for a transaction

  /** `categories[tx.category] || categories.other`. */
  function DisplayCategory(cats: CategoryTable, key: string): Option<Category> {
    match Lookup(cats, key)
    case Some(c) => Some(c)
    case None => Lookup(cats, "other")
  }

  /** `ICON_LIBRARY[catConfig.iconName] || Tag`: the icon the list draws. */
  function IconFor(c: Category): (icon: string)
    ensures icon in Constants.IconLibrary()
    ensures c.iconName.Some? && c.iconName.value in Constants.IconLibrary() ==> icon == c.iconName.value
    ensures c.iconName.None? ==> icon == "Tag"
  {
    if c.iconName.Some? && c.iconName.value in Constants.IconLibrary() then c.iconName.value else "Tag"
  }

  // ---------------------------------------------------------------------------------------
  // Lemmas: parseInt

  /** `parseInt` reads back a decimal numeral. */
  lemma ParseIntDecimal(n: nat)
    ensures ParseInt(Decimal(n)) == Some(n)
  {
    var d := Decimal(n);
    assert !IsJsSpace(d[0]);
    assert TrimStart(d) == d;
    assert d[0] != '-' && d[0] != '+';
    assert DigitPrefix(d) == d;
    DecimalRoundTrip(n);
  }

  /** A selector that starts with a character that is neither whitespace, a sign nor a digit
      is not a number: the window selectors with names are never read as a day count. */
  lemma ParseIntWord(s: string)
    requires s != [] && !IsJsSpace(s[0]) && !IsDigit(s[0]) && s[0] != '-' && s[0] != '+'
    ensures ParseInt(s) == None
  {
    assert TrimStart(s) == s;
  }

  // ---------------------------------------------------------------------------------------
  // Lemmas: the date window

  /** "all" keeps every transaction. */
  lemma WindowAll(today: Date, t: Transaction)
    ensures InWindow("all", today, t)
  {
  }

  /** "this_year" is not one of the handled names and not a number, so it keeps every
      transaction, whatever its year. */
  lemma WindowThisYear(today: Date, t: Transaction)
    ensures InWindow("this_year", today, t)
  {
    assert WindowBounds("this_year", today) == None by {
      ParseIntWord("this_year");
    }
  }

  /** "today" keeps exactly the transactions dated today. */
  lemma WindowToday(today: Date, t: Transaction)
    requires ValidDate(today) && ValidDate(t.date)
    ensures InWindow("today", today, t) <==> t.date == today
  {
    NoonVersusStart(DayNumber(t.date), DayNumber(today));
    NoonVersusEnd(DayNumber(t.date), DayNumber(today));
    DayNumberInjective(t.date, today);
  }

  /** A numeric selector `n` keeps the transactions of the last `n` days, today included:
      those whose day number lies in `(today - n, today]`. */
  lemma WindowDays(sel: string, n: int, today: Date, t: Transaction)
    requires sel != "all" && sel != "today" && sel != "current_month" && sel != "last_month"
    requires ParseInt(sel) == Some(n)
    ensures InWindow(sel, today, t) <==>
      DayNumber(today) - n < DayNumber(t.date) <= DayNumber(today)
  {
    var cutoff := MakeDate(MakeDay(today.year, today.month - 1, today.day - n), MsPerDay - 1);
    DayCountWindow(sel, n, today);
    InWindowBetween(sel, today, t, cutoff, EndOfDay(today));
    DaysBounds(n, today, t.date);
  }

  /** The bounds of a numeric selector. */
  lemma DayCountWindow(sel: string, n: int, today: Date)
    requires sel != "all" && sel != "today" && sel != "current_month" && sel != "last_month"
    requires ParseInt(sel) == Some(n)
    ensures WindowBounds(sel, today) ==
      Some((MakeDate(MakeDay(today.year, today.month - 1, today.day - n), MsPerDay - 1), EndOfDay(today)))
  {
    assert WindowBounds(sel, today) == DayCountBounds(sel, today);
  }

  /** A window with bounds keeps the transactions whose noon lies within them. */
  lemma InWindowBetween(sel: string, today: Date, t: Transaction, lo: int, hi: int)
    requires WindowBounds(sel, today) == Some((lo, hi))
    ensures InWindow(sel, today, t) <==> lo <= NoonOf(t.date) <= hi
  {
  }

  /** The timestamps of the numeric window against the day numbers. */
  lemma DaysBounds(n: int, today: Date, d: Date)
    ensures MakeDate(MakeDay(today.year, today.month - 1, today.day - n), MsPerDay - 1) <= NoonOf(d) <= EndOfDay(today)
      <==> DayNumber(today) - n < DayNumber(d) <= DayNumber(today)
  {
    var cutoffDay := MakeDay(today.year, today.month - 1, today.day - n);
    assert cutoffDay == DayNumber(today) - n;
    NoonVersusEndAfter(DayNumber(d), cutoffDay);
    NoonVersusEnd(DayNumber(d), DayNumber(today));
  }

  /** "current_month" keeps the transactions from the first of today's month up to today. */
  lemma WindowCurrentMonth(today: Date, t: Transaction)
    requires ValidDate(today) && ValidDate(t.date)
    ensures InWindow("current_month", today, t) <==>
      t.date.year == today.year && t.date.month == today.month && t.date.day <= today.day
  {
    var first := Date(today.year, today.month, 1);
    assert MakeDay(today.year, today.month - 1, 1) == DayNumber(first);
    NoonVersusStart(DayNumber(t.date), DayNumber(first));
    NoonVersusEnd(DayNumber(t.date), DayNumber(today));
    DayNumberOrder(first, t.date);
    DayNumberOrder(t.date, today);
  }

  /** The first day of the month before today's. */
  function FirstOfPrevMonth(today: Date): Date
    requires 1 <= today.month <= 12
  {
    var p := PrevMonth(today.year, today.month);
    Date(p.0, p.1, 1)
  }

  /** The window "last_month" runs from the first day of the previous month to the day
      before the first of this month. */
  lemma LastMonthBounds(today: Date)
    requires ValidDate(today)
    ensures MakeDay(today.year, today.month - 2, 1) == DayNumber(FirstOfPrevMonth(today))
    ensures MakeDay(today.year, today.month - 1, 0) == DayNumber(Date(today.year, today.month, 1)) - 1
  {
    FirstOfPrevMonthDay(today);
    DayBeforeMonth(today);
  }

  lemma DayBeforeMonth(today: Date)
    requires ValidDate(today)
    ensures MakeDay(today.year, today.month - 1, 0) == DayNumber(Date(today.year, today.month, 1)) - 1
  {
    var y, m0 := today.year, today.month - 1;
    assert m0 / 12 == 0 && m0 % 12 == m0;
    assert MakeDay(y, m0, 0) == MonthStart(y, m0) - 1;
    assert MakeDay(y, m0, 1) == MonthStart(y, m0);
  }

  lemma FirstOfPrevMonthDay(today: Date)
    requires ValidDate(today)
    ensures MakeDay(today.year, today.month - 2, 1) == DayNumber(FirstOfPrevMonth(today))
  {
    var y, m := today.year, today.month;
    if m == 1 {
      assert (m - 2) / 12 == -1 && (m - 2) % 12 == 11;
      assert MakeDay(y, m - 2, 1) == MonthStart(y - 1, 11);
      assert FirstOfPrevMonth(today) == Date(y - 1, 12, 1);
      assert 11 / 12 == 0 && 11 % 12 == 11;
      assert MakeDay(y - 1, 11, 1) == MonthStart(y - 1, 11);
    } else {
      assert (m - 2) / 12 == 0 && (m - 2) % 12 == m - 2;
      assert FirstOfPrevMonth(today) == Date(y, m - 1, 1);
    }
  }

  /** "last_month" keeps exactly the transactions of the previous calendar month; in January
      that is December of the year before. */
  lemma WindowLastMonth(today: Date, t: Transaction)
    requires ValidDate(today) && ValidDate(t.date) && 1 <= today.year
    ensures InWindow("last_month", today, t) <==>
      (t.date.year, t.date.month) == PrevMonth(today.year, today.month)
  {
    var lo := MakeDate(MakeDay(today.year, today.month - 2, 1), 0);
    var hi := MakeDate(MakeDay(today.year, today.month - 1, 0), MsPerDay - 1);
    assert WindowBounds("last_month", today) == Some((lo, hi));
    InWindowBetween("last_month", today, t, lo, hi);
    LastMonthTimes(today, t.date);
  }

  /** The timestamps of the "last_month" window against the calendar. */
  lemma LastMonthTimes(today: Date, d: Date)
    requires ValidDate(today) && ValidDate(d) && 1 <= today.year
    ensures MakeDate(MakeDay(today.year, today.month - 2, 1), 0) <= NoonOf(d)
              <= MakeDate(MakeDay(today.year, today.month - 1, 0), MsPerDay - 1)
      <==> (d.year, d.month) == PrevMonth(today.year, today.month)
  {
    var first := FirstOfPrevMonth(today);
    var next := Date(today.year, today.month, 1);
    LastMonthBounds(today);
    NoonVersusStart(DayNumber(d), DayNumber(first));
    NoonVersusEnd(DayNumber(d), DayNumber(next) - 1);
    DayNumberOrder(first, d);
    DayNumberOrder(next, d);
  }

  // ---------------------------------------------------------------------------------------
  // Lemmas: the filtered list

  /** Keeping what is all inside the window keeps everything. */
  lemma {:induction false} KeepAllInWindow(s: seq<Transaction>, sel: string, today: Date)
    requires forall x :: x in s ==> InWindow(sel, today, x)
    ensures KeepInWindow(s, sel, today) == s
    decreases |s|
  {
    if s != [] {
      assert forall x :: x in s[1..] ==> x in s;
      KeepAllInWindow(s[1..], sel, today);
      assert s == [s[0]] + s[1..];
    }
  }

  /** The filtered list holds exactly the window's transactions, each as often as in the
      list, latest date first. */
  lemma FilteredContents(ts: seq<Transaction>, sel: string, today: Date)
    ensures forall x :: x in Filtered(ts, sel, today) <==> x in ts && InWindow(sel, today, x)
    ensures multiset(Filtered(ts, sel, today)) == multiset(KeepInWindow(ts, sel, today))
    ensures forall i, j :: 0 <= i < j < |Filtered(ts, sel, today)| ==>
      DateKey(Filtered(ts, sel, today)[i]) >= DateKey(Filtered(ts, sel, today)[j])
  {
    var k := KeepInWindow(ts, sel, today);
    var f := Filtered(ts, sel, today);
    assert multiset(f) == multiset(k);
    forall x ensures x in f <==> x in k {
      assert x in f <==> x in multiset(f);
      assert x in k <==> x in multiset(k);
    }
  }

  /** On real calendar days the filtered list runs from the latest date to the earliest. */
  lemma FilteredLatestFirst(ts: seq<Transaction>, sel: string, today: Date)
    requires forall x :: x in ts ==> ValidDate(x.date)
    ensures forall i, j :: 0 <= i < j < |Filtered(ts, sel, today)| ==>
      LexLe(Filtered(ts, sel, today)[j].date, Filtered(ts, sel, today)[i].date)
  {
    var f := Filtered(ts, sel, today);
    FilteredContents(ts, sel, today);
    forall i, j | 0 <= i < j < |f| ensures LexLe(f[j].date, f[i].date) {
      assert f[i] in f && f[j] in f;
      DayNumberOrder(f[j].date, f[i].date);
    }
  }

  /** Transactions of the same day keep their list order. */
  lemma FilteredSameDayOrder(ts: seq<Transaction>, sel: string, today: Date, day: int)
    ensures WithKey(Filtered(ts, sel, today), DateKey, day) == WithKey(KeepInWindow(ts, sel, today), DateKey, day)
  {
    SortStable(KeepInWindow(ts, sel, today), DateKey, day);
  }

  /** Filtering the filtered list again with the same window changes nothing. */
  lemma FilteredIdempotent(ts: seq<Transaction>, sel: string, today: Date)
    ensures Filtered(Filtered(ts, sel, today), sel, today) == Filtered(ts, sel, today)
  {
    var f := Filtered(ts, sel, today);
    FilteredContents(ts, sel, today);
    KeepAllInWindow(f, sel, today);
    SortIdempotent(KeepInWindow(ts, sel, today), DateKey);
  }

  /** "all" shows every transaction, only reordered. */
  lemma FilteredAll(ts: seq<Transaction>, today: Date)
    ensures Filtered(ts, "all", today) == Sort(ts, DateKey)
    ensures multiset(Filtered(ts, "all", today)) == multiset(ts)
  {
    KeepAllInWindow(ts, "all", today);
  }

  // ---------------------------------------------------------------------------------------
  // Lemmas: sums

  /** `reduce` from `acc` adds the sum of the amounts to `acc`. */
  lemma {:induction false} AddAmountsIsSum(acc: int, s: seq<Transaction>)
    ensures AddAmounts(acc, s) == acc + SumBy(s, Amount)
    decreases |s|
  {
    if s != [] {
      AddAmountsIsSum(acc + s[0].amount, s[1..]);
    }
  }

  /** The balance fold adds incomes and subtracts expenses. */
  lemma {:induction false} BalanceIsSum(acc: int, s: seq<Transaction>)
    ensures Balance(acc, s) == acc + SumBy(s, IncomeAmount) - SumBy(s, ExpenseAmount)
    decreases |s|
  {
    if s != [] {
      BalanceIsSum(if s[0].kind == Income then acc + s[0].amount else acc - s[0].amount, s[1..]);
    }
  }

  /** The balance is the sum of all incomes minus the sum of all expenses. */
  lemma TotalBalanceIsIncomeMinusExpense(ts: seq<Transaction>)
    ensures TotalBalance(ts) == SumBy(ts, IncomeAmount) - SumBy(ts, ExpenseAmount)
  {
    BalanceIsSum(0, ts);
  }

  /** Summing the amounts of one kind is summing that kind's share of every transaction. */
  lemma {:induction false} OfKindSum(s: seq<Transaction>, k: Kind)
    ensures SumBy(OfKind(s, k), Amount) == SumBy(s, if k == Income then IncomeAmount else ExpenseAmount)
    decreases |s|
  {
    if s != [] {
      OfKindSum(s[1..], k);
      SumAppend(if s[0].kind == k then [s[0]] else [], OfKind(s[1..], k), Amount);
    }
  }

  /** The period income is the income of the window's transactions, whatever their order. */
  lemma PeriodIncomeIsWindowIncome(ts: seq<Transaction>, sel: string, today: Date)
    ensures PeriodIncome(ts, sel, today) == SumBy(KeepInWindow(ts, sel, today), IncomeAmount)
  {
    var f := Filtered(ts, sel, today);
    AddAmountsIsSum(0, OfKind(f, Income));
    OfKindSum(f, Income);
    SumSort(KeepInWindow(ts, sel, today), DateKey, IncomeAmount);
  }

  /** The period expense is the expense of the window's transactions, whatever their order. */
  lemma PeriodExpenseIsWindowExpense(ts: seq<Transaction>, sel: string, today: Date)
    ensures PeriodExpense(ts, sel, today) == SumBy(KeepInWindow(ts, sel, today), ExpenseAmount)
  {
    var f := Filtered(ts, sel, today);
    AddAmountsIsSum(0, OfKind(f, Expense));
    OfKindSum(f, Expense);
    SumSort(KeepInWindow(ts, sel, today), DateKey, ExpenseAmount);
  }

  /** Over the whole history the period's income minus its expense is the balance. */
  lemma AllPeriodsMakeTheBalance(ts: seq<Transaction>, today: Date)
    ensures PeriodIncome(ts, "all", today) - PeriodExpense(ts, "all", today) == TotalBalance(ts)
  {
    KeepAllInWindow(ts, "all", today);
    PeriodIncomeIsWindowIncome(ts, "all", today);
    PeriodExpenseIsWindowExpense(ts, "all", today);
    TotalBalanceIsIncomeMinusExpense(ts);
  }

  // ---------------------------------------------------------------------------------------
  // Lemmas: the expense breakdown

  /** The per-category list holds one slice per expense category, with that category's total. */
  lemma {:induction false} ExpenseSlicesMembers(cats: CategoryTable, filtered: seq<Transaction>)
    ensures forall x :: x in ExpenseSlices(cats, filtered) <==>
      exists i :: 0 <= i < |cats| && cats[i].cat.kind == Expense
        && x == Slice(cats[i].key, CategoryTotal(filtered, cats[i].key), cats[i].cat)
    decreases |cats|
  {
    if cats != [] {
      ExpenseSlicesMembers(cats[1..], filtered);
      forall x | x in ExpenseSlices(cats, filtered)
        ensures exists i :: 0 <= i < |cats| && cats[i].cat.kind == Expense
                   && x == Slice(cats[i].key, CategoryTotal(filtered, cats[i].key), cats[i].cat)
      {
        if x !in ExpenseSlices(cats[1..], filtered) {
          assert cats[0].cat.kind == Expense;
        } else {
          var i :| 0 <= i < |cats[1..]| && cats[1..][i].cat.kind == Expense
            && x == Slice(cats[1..][i].key, CategoryTotal(filtered, cats[1..][i].key), cats[1..][i].cat);
          assert cats[i + 1] == cats[1..][i];
        }
      }
      forall x, i | 0 <= i < |cats| && cats[i].cat.kind == Expense
          && x == Slice(cats[i].key, CategoryTotal(filtered, cats[i].key), cats[i].cat)
        ensures x in ExpenseSlices(cats, filtered)
      {
        if i > 0 {
          assert cats[1..][i - 1] == cats[i];
        }
      }
    }
  }

  /** `expensesByCategory` holds exactly the expense categories whose period total is
      positive, each once with its total and its category. */
  lemma BreakdownMembers(cats: CategoryTable, filtered: seq<Transaction>)
    ensures forall x :: x in ExpensesByCategory(cats, filtered) <==>
      x.total > 0 && (exists i :: 0 <= i < |cats| && cats[i].cat.kind == Expense
                       && x == Slice(cats[i].key, CategoryTotal(filtered, cats[i].key), cats[i].cat))
  {
    var p := PositiveSlices(ExpenseSlices(cats, filtered));
    var b := ExpensesByCategory(cats, filtered);
    ExpenseSlicesMembers(cats, filtered);
    assert multiset(b) == multiset(p);
    forall x ensures x in b <==> x in p {
      assert x in b <==> x in multiset(b);
      assert x in p <==> x in multiset(p);
    }
  }

  /** `expensesByCategory` runs from the largest total to the smallest. */
  lemma BreakdownLargestFirst(cats: CategoryTable, filtered: seq<Transaction>)
    ensures forall i, j :: 0 <= i < j < |ExpensesByCategory(cats, filtered)| ==>
      ExpensesByCategory(cats, filtered)[i].total >= ExpensesByCategory(cats, filtered)[j].total
  {
    var b := ExpensesByCategory(cats, filtered);
    assert SortedDesc(b, SliceTotal);
    forall i, j | 0 <= i < j < |b| ensures b[i].total >= b[j].total {
      assert SliceTotal(b[i]) >= SliceTotal(b[j]);
    }
  }

  /** Categories with the same total keep their key order in `expensesByCategory`. */
  lemma BreakdownTiesInKeyOrder(cats: CategoryTable, filtered: seq<Transaction>, total: int)
    ensures WithKey(ExpensesByCategory(cats, filtered), SliceTotal, total)
         == WithKey(PositiveSlices(ExpenseSlices(cats, filtered)), SliceTotal, total)
  {
    SortStable(PositiveSlices(ExpenseSlices(cats, filtered)), SliceTotal, total);
  }

  /** `topExpense` is `null` exactly when no expense category has a positive total, and
      otherwise a category of the breakdown whose total no expense category exceeds. */
  lemma TopExpenseIsLargest(cats: CategoryTable, filtered: seq<Transaction>)
    ensures TopExpense(cats, filtered).None? <==>
      forall i :: 0 <= i < |cats| && cats[i].cat.kind == Expense ==> CategoryTotal(filtered, cats[i].key) <= 0
    ensures TopExpense(cats, filtered).Some? ==>
      TopExpense(cats, filtered).value in ExpensesByCategory(cats, filtered)
      && forall i :: 0 <= i < |cats| && cats[i].cat.kind == Expense ==>
           CategoryTotal(filtered, cats[i].key) <= TopExpense(cats, filtered).value.total
  {
    var b := ExpensesByCategory(cats, filtered);
    BreakdownMembers(cats, filtered);
    BreakdownLargestFirst(cats, filtered);
    forall i | 0 <= i < |cats| && cats[i].cat.kind == Expense && CategoryTotal(filtered, cats[i].key) > 0
      ensures Slice(cats[i].key, CategoryTotal(filtered, cats[i].key), cats[i].cat) in b
      ensures b != [] && CategoryTotal(filtered, cats[i].key) <= b[0].total
    {
      var x := Slice(cats[i].key, CategoryTotal(filtered, cats[i].key), cats[i].cat);
      assert x in b;
      var j :| 0 <= j < |b| && b[j] == x;
      if j > 0 {
        assert b[0].total >= b[j].total;
      }
    }
    if b != [] {
      assert b[0] in b;
      var i :| 0 <= i < |cats| && cats[i].cat.kind == Expense
        && b[0] == Slice(cats[i].key, CategoryTotal(filtered, cats[i].key), cats[i].cat);
    }
  }

  /** Every expense transaction is non-negative and filed under an expense category of the
      table. */
  predicate Categorized(cats: CategoryTable, filtered: seq<Transaction>) {
    forall x :: x in filtered && x.kind == Expense ==>
      x.amount >= 0 && Lookup(cats, x.category).Some? && Lookup(cats, x.category).value.kind == Expense
  }

  /** The share of transaction `x` in the totals of the table's expense categories. */
  function Hits(cats: CategoryTable, x: Transaction): int
    decreases |cats|
  {
    if cats == [] then 0
    else
      (if cats[0].cat.kind == Expense && x.kind == Expense && cats[0].key == x.category then x.amount else 0)
      + Hits(cats[1..], x)
  }

  lemma CategoryTotalCons(x: Transaction, r: seq<Transaction>, key: string)
    ensures CategoryTotal([x] + r, key) ==
      (if x.kind == Expense && x.category == key then x.amount else 0) + CategoryTotal(r, key)
  {
    var h: seq<Transaction> := if x.kind == Expense && x.category == key then [x] else [];
    assert ([x] + r)[1..] == r;
    assert ExpensesOf([x] + r, key) == h + ExpensesOf(r, key);
    AddAmountsIsSum(0, h + ExpensesOf(r, key));
    AddAmountsIsSum(0, ExpensesOf(r, key));
    SumAppend(h, ExpensesOf(r, key), Amount);
  }

  lemma {:induction false} SlicesSumNil(cats: CategoryTable)
    ensures SumBy(ExpenseSlices(cats, []), SliceTotal) == 0
    decreases |cats|
  {
    if cats != [] {
      SlicesSumNil(cats[1..]);
      var h := if cats[0].cat.kind == Expense then [Slice(cats[0].key, 0, cats[0].cat)] else [];
      SumAppend(h, ExpenseSlices(cats[1..], []), SliceTotal);
    }
  }

  lemma {:induction false} SlicesSumCons(cats: CategoryTable, x: Transaction, r: seq<Transaction>)
    ensures SumBy(ExpenseSlices(cats, [x] + r), SliceTotal)
         == Hits(cats, x) + SumBy(ExpenseSlices(cats, r), SliceTotal)
    decreases |cats|
  {
    if cats != [] {
      SlicesSumCons(cats[1..], x, r);
      var e := cats[0];
      CategoryTotalCons(x, r, e.key);
      var h := if e.cat.kind == Expense then [Slice(e.key, CategoryTotal([x] + r, e.key), e.cat)] else [];
      var h' := if e.cat.kind == Expense then [Slice(e.key, CategoryTotal(r, e.key), e.cat)] else [];
      SumAppend(h, ExpenseSlices(cats[1..], [x] + r), SliceTotal);
      SumAppend(h', ExpenseSlices(cats[1..], r), SliceTotal);
    }
  }

  /** An income, or an expense under a key the table lacks, counts in no total. */
  lemma {:induction false} HitsNone(cats: CategoryTable, x: Transaction)
    requires x.kind == Income || forall i :: 0 <= i < |cats| ==> cats[i].key != x.category
    ensures Hits(cats, x) == 0
    decreases |cats|
  {
    if cats != [] {
      assert x.kind == Income || cats[0].key != x.category;
      forall i | 0 <= i < |cats[1..]| && x.kind == Expense ensures cats[1..][i].key != x.category {
        assert cats[1..][i] == cats[i + 1];
      }
      HitsNone(cats[1..], x);
    }
  }

  /** With distinct keys an expense filed under an expense category counts in exactly one total. */
  lemma {:induction false} HitsOnce(cats: CategoryTable, x: Transaction)
    requires DistinctKeys(cats)
    requires x.kind == Expense && Lookup(cats, x.category).Some? && Lookup(cats, x.category).value.kind == Expense
    ensures Hits(cats, x) == x.amount
    decreases |cats|
  {
    if cats[0].key == x.category {
      forall i | 0 <= i < |cats[1..]| ensures cats[1..][i].key != x.category {
        assert cats[1..][i] == cats[i + 1];
      }
      HitsNone(cats[1..], x);
    } else {
      assert DistinctKeys(cats[1..]) by {
        forall i, j | 0 <= i < j < |cats[1..]| ensures cats[1..][i].key != cats[1..][j].key {
          assert cats[1..][i] == cats[i + 1] && cats[1..][j] == cats[j + 1];
        }
      }
      HitsOnce(cats[1..], x);
    }
  }

  lemma {:induction false} SlicesSumIsExpense(cats: CategoryTable, filtered: seq<Transaction>)
    requires DistinctKeys(cats) && Categorized(cats, filtered)
    ensures SumBy(ExpenseSlices(cats, filtered), SliceTotal) == SumBy(filtered, ExpenseAmount)
    decreases |filtered|
  {
    if filtered == [] {
      SlicesSumNil(cats);
    } else {
      var x, r := filtered[0], filtered[1..];
      assert filtered == [x] + r;
      assert x in filtered;
      assert Categorized(cats, r) by {
        forall y | y in r ensures y in filtered { }
      }
      SlicesSumIsExpense(cats, r);
      SlicesSumCons(cats, x, r);
      if x.kind == Expense {
        HitsOnce(cats, x);
      } else {
        HitsNone(cats, x);
      }
    }
  }

  /** Dropping slices of total zero does not change the sum. */
  lemma {:induction false} PositiveSlicesSum(s: seq<Slice>)
    requires forall x :: x in s ==> x.total >= 0
    ensures SumBy(PositiveSlices(s), SliceTotal) == SumBy(s, SliceTotal)
    decreases |s|
  {
    if s != [] {
      assert s[0] in s;
      assert forall x :: x in s[1..] ==> x in s;
      PositiveSlicesSum(s[1..]);
      SumAppend(if s[0].total > 0 then [s[0]] else [], PositiveSlices(s[1..]), SliceTotal);
    }
  }

  /** A sum of non-negative amounts is non-negative. */
  lemma {:induction false} AmountsNonNegative(s: seq<Transaction>)
    requires forall x :: x in s ==> x.amount >= 0
    ensures SumBy(s, Amount) >= 0
    decreases |s|
  {
    if s != [] {
      assert s[0] in s;
      assert forall x :: x in s[1..] ==> x in s;
      AmountsNonNegative(s[1..]);
    }
  }

  /** When every expense of the period is non-negative and filed under an expense category,
      the breakdown adds up to the period's expense: each expense lands in exactly one slice. */
  lemma BreakdownCoversPeriodExpense(cats: CategoryTable, ts: seq<Transaction>, sel: string, today: Date)
    requires DistinctKeys(cats)
    requires Categorized(cats, KeepInWindow(ts, sel, today))
    ensures SumBy(ExpensesByCategory(cats, Filtered(ts, sel, today)), SliceTotal) == PeriodExpense(ts, sel, today)
  {
    var f := Filtered(ts, sel, today);
    var k := KeepInWindow(ts, sel, today);
    FilteredContents(ts, sel, today);
    assert Categorized(cats, f);
    var slices := ExpenseSlices(cats, f);
    ExpenseSlicesMembers(cats, f);
    forall x | x in slices ensures x.total >= 0 {
      var i :| 0 <= i < |cats| && cats[i].cat.kind == Expense
        && x == Slice(cats[i].key, CategoryTotal(f, cats[i].key), cats[i].cat);
      AddAmountsIsSum(0, ExpensesOf(f, cats[i].key));
      AmountsNonNegative(ExpensesOf(f, cats[i].key));
    }
    PositiveSlicesSum(slices);
    SumSort(PositiveSlices(slices), SliceTotal, SliceTotal);
    SlicesSumIsExpense(cats, f);
    SumSort(k, DateKey, ExpenseAmount);
    PeriodExpenseIsWindowExpense(ts, sel, today);
  }
}
