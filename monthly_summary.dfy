/**
 * backend/controllers/emailController.js: the monthly summary of one user's incomes and
 * expenses, and the run that mails it to every verified user.
 *
 * Amounts are exact reals: the floating-point sums and the `toFixed(2)` rendering are
 * not modelled. The database queries become inputs: the incomes and expenses a user
 * recorded in the summarised month, and, per user, how the mail transport answered.
 */
module MonthlySummary {
  import opened Common
  import UserModel
  import CurrencyFormat

  datatype Expense = Expense(amount: real, category: string)

  /** The object `calculateMonthlySummary` returns (amounts before rendering). */
  datatype Summary = Summary(
    username: string, email: string, month: string, year: int,
    totalIncome: real, totalExpenses: real, balance: real,
    currencySymbol: Option<string>, transactionCount: nat,
    highestExpense: real, topCategory: string)

  const MonthNames: seq<string> :=
    ["January", "February", "March", "April", "May", "June", "July", "August",
     "September", "October", "November", "December"]

  // ---------------------------------------------------------------------------
  // The summarised month
  // ---------------------------------------------------------------------------

  /** The month (1 to 12) and year `sendMonthlySummaries` summarises, from the
      zero-based `getMonth()` and the `getFullYear()` of the current date. */
  function SummaryPeriod(monthIndex: int, fullYear: int): (p: (int, int))
    requires 0 <= monthIndex < 12
    ensures 1 <= p.0 <= 12
    ensures p.1 * 12 + (p.0 - 1) == fullYear * 12 + monthIndex - 1
  {
    var year := if monthIndex == 0 then fullYear - 1 else fullYear;
    var month := if monthIndex == 0 then 12 else monthIndex;
    (month, year)
  }

  /** January rolls back to December of the previous year; any other month gives the
      month before it in the same year. */
  lemma PeriodRollsOver(monthIndex: int, fullYear: int)
    requires 0 <= monthIndex < 12
    ensures monthIndex == 0 ==> SummaryPeriod(monthIndex, fullYear) == (12, fullYear - 1)
    ensures monthIndex > 0 ==> SummaryPeriod(monthIndex, fullYear) == (monthIndex, fullYear)
    ensures MonthNames[SummaryPeriod(monthIndex, fullYear).0 - 1]
              == MonthNames[(monthIndex + 11) % 12]
  {
  }

  // ---------------------------------------------------------------------------
  // Sums, maximum
  // ---------------------------------------------------------------------------

  /** `reduce((sum, x) => sum + x, 0)`, folding from the left. */
  function Total(xs: seq<real>): (r: real)
    ensures (forall i :: 0 <= i < |xs| ==> xs[i] >= 0.0) ==> r >= 0.0
  {
    if |xs| == 0 then 0.0 else Total(xs[..|xs| - 1]) + xs[|xs| - 1]
  }

  function Amounts(expenses: seq<Expense>): (r: seq<real>)
    ensures |r| == |expenses|
  {
    seq(|expenses|, i requires 0 <= i < |expenses| => expenses[i].amount)
  }

  /** The sum of a concatenation is the sum of the sums. */
  lemma {:induction false} TotalAppend(xs: seq<real>, ys: seq<real>)
    ensures Total(xs + ys) == Total(xs) + Total(ys)
    decreases |ys|
  {
    if |ys| == 0 {
      assert xs + ys == xs;
    } else {
      assert (xs + ys)[..|xs + ys| - 1] == xs + ys[..|ys| - 1];
      TotalAppend(xs, ys[..|ys| - 1]);
    }
  }

  /** `expenses.length > 0 ? Math.max(...amounts) : 0`. */
  function Highest(xs: seq<real>): (r: real)
    ensures |xs| == 0 ==> r == 0.0
    ensures |xs| > 0 ==> r in xs && forall x :: x in xs ==> x <= r
  {
    if |xs| == 0 then 0.0
    else if |xs| == 1 then xs[0]
    else
      var rest := Highest(xs[..|xs| - 1]);
      assert xs == xs[..|xs| - 1] + [xs[|xs| - 1]];
      if rest >= xs[|xs| - 1] then rest else xs[|xs| - 1]
  }

  /** With no negative amount, the highest expense is at most the total. */
  lemma {:induction false} HighestWithinTotal(xs: seq<real>)
    requires forall i :: 0 <= i < |xs| ==> xs[i] >= 0.0
    ensures 0.0 <= Highest(xs) <= Total(xs)
  {
    if |xs| > 1 {
      var init := xs[..|xs| - 1];
      HighestWithinTotal(init);
      assert xs == init + [xs[|xs| - 1]];
    }
  }

  // ---------------------------------------------------------------------------
  // Category counts
  // ---------------------------------------------------------------------------

  /** How many times `k` occurs in `xs`. */
  function Occurrences(xs: seq<string>, k: string): nat
  {
    if |xs| == 0 then 0
    else Occurrences(xs[..|xs| - 1], k) + (if xs[|xs| - 1] == k then 1 else 0)
  }

  /** The distinct elements of `xs` in order of first appearance: the key order of an
      object whose keys are added as the elements are met. */
  function FirstAppearances(xs: seq<string>): (keys: seq<string>)
    ensures forall k :: k in keys <==> k in xs
    ensures forall i, j :: 0 <= i < j < |keys| ==> keys[i] != keys[j]
  {
    if |xs| == 0 then []
    else
      var init := xs[..|xs| - 1];
      assert xs == init + [xs[|xs| - 1]];
      if xs[|xs| - 1] in init then FirstAppearances(init) else FirstAppearances(init) + [xs[|xs| - 1]]
  }

  lemma {:induction false} OccursIffPositive(xs: seq<string>, k: string)
    ensures k in xs <==> Occurrences(xs, k) > 0
  {
    if |xs| > 0 {
      OccursIffPositive(xs[..|xs| - 1], k);
      assert xs == xs[..|xs| - 1] + [xs[|xs| - 1]];
    }
  }

  /** The `categoryCount` loop: one key per distinct category in order of first
      appearance, mapped to the number of expenses in that category. */
  method CountCategories(categories: seq<string>) returns (keys: seq<string>, counts: map<string, nat>)
    ensures keys == FirstAppearances(categories)
    ensures forall k :: k in counts <==> k in categories
    ensures forall k :: k in counts ==> counts[k] == Occurrences(categories, k) && counts[k] > 0
  {
    keys := [];
    counts := map[];
    var i := 0;
    while i < |categories|
      invariant 0 <= i <= |categories|
      invariant keys == FirstAppearances(categories[..i])
      invariant forall k :: k in counts <==> k in categories[..i]
      invariant forall k :: k in counts ==> counts[k] == Occurrences(categories[..i], k)
    {
      var category := categories[i];
      assert categories[..i + 1] == categories[..i] + [category];
      assert categories[..i + 1][..i] == categories[..i];
      if category !in counts {
        OccursIffPositive(categories[..i], category);
        keys := keys + [category];
      }
      counts := counts[category := (if category in counts then counts[category] else 0) + 1];
      i := i + 1;
    }
    assert categories[..i] == categories;
    forall k | k in counts ensures counts[k] > 0 {
      OccursIffPositive(categories, k);
    }
  }

  /** The position the `reduce((a, b) => count[a] > count[b] ? a : b)` over the first `n`
      keys ends at: a key with the largest count, and the last such key. */
  function TopIndex(keys: seq<string>, counts: map<string, nat>, n: nat): (r: nat)
    requires 1 <= n <= |keys|
    requires forall k :: k in keys ==> k in counts
    ensures r < n
    ensures forall j :: 0 <= j < n ==> counts[keys[j]] <= counts[keys[r]]
    ensures forall j :: r < j < n ==> counts[keys[j]] < counts[keys[r]]
  {
    if n == 1 then 0
    else
      var best := TopIndex(keys, counts, n - 1);
      if counts[keys[best]] > counts[keys[n - 1]] then best else n - 1
  }

  /** `topCategory`: "None" without keys, otherwise the key the reduce ends at. */
  function TopCategory(keys: seq<string>, counts: map<string, nat>): (top: string)
    requires forall k :: k in keys ==> k in counts
    ensures |keys| == 0 ==> top == "None"
    ensures |keys| > 0 ==> top in keys && forall k :: k in keys ==> counts[k] <= counts[top]
  {
    if |keys| == 0 then "None" else keys[TopIndex(keys, counts, |keys|)]
  }

  /** Ties go to the later key: among distinct keys, one followed by a key with the same
      count is never chosen. */
  lemma TopCategoryTieRule(keys: seq<string>, counts: map<string, nat>, i: nat, j: nat)
    requires forall k :: k in keys ==> k in counts
    requires forall a, b :: 0 <= a < b < |keys| ==> keys[a] != keys[b]
    requires i < j < |keys| && counts[keys[i]] == counts[keys[j]]
    requires forall m :: 0 <= m < |keys| ==> counts[keys[m]] <= counts[keys[i]]
    ensures TopCategory(keys, counts) != keys[i]
  {
    var r := TopIndex(keys, counts, |keys|);
  }

  // ---------------------------------------------------------------------------
  // calculateMonthlySummary
  // ---------------------------------------------------------------------------

  function Categories(expenses: seq<Expense>): (r: seq<string>)
    ensures |r| == |expenses|
  {
    seq(|expenses|, i requires 0 <= i < |expenses| => expenses[i].category)
  }

  /** The `categoryCount` object as a map: each category met to its number of expenses. */
  function CategoryCounts(categories: seq<string>): map<string, nat>
  {
    map k | k in categories :: Occurrences(categories, k)
  }

  /** The summary of a user's month, as `calculateMonthlySummary` assembles it. */
  function SummaryOf(user: UserModel.Account, month: int, year: int, incomes: seq<real>,
                     expenses: seq<Expense>): (r: Summary)
    requires 1 <= month <= 12
    ensures r.balance == r.totalIncome - r.totalExpenses
    ensures |expenses| == 0 ==> r.highestExpense == 0.0 && r.topCategory == "None"
    ensures (forall i :: 0 <= i < |expenses| ==> expenses[i].amount >= 0.0) ==>
              0.0 <= r.highestExpense <= r.totalExpenses
  {
    var categories := Categories(expenses);
    var r := Summary(user.username, user.email, MonthNames[month - 1], year,
                     Total(incomes), Total(Amounts(expenses)), Total(incomes) - Total(Amounts(expenses)),
                     CurrencyFormat.GetCurrencySymbol(Some(user.currency)), |incomes| + |expenses|,
                     Highest(Amounts(expenses)), TopCategory(FirstAppearances(categories), CategoryCounts(categories)));
    if forall i :: 0 <= i < |expenses| ==> expenses[i].amount >= 0.0 then
      HighestWithinTotal(Amounts(expenses));
      r
    else r
  }

  /** `calculateMonthlySummary` for a user (`None` when the account is gone) and the
      incomes and expenses recorded in the month. */
  method CalculateMonthlySummary(user: Option<UserModel.Account>, month: int, year: int,
                                 incomes: seq<real>, expenses: seq<Expense>)
    returns (summary: Option<Summary>)
    requires 1 <= month <= 12
    ensures summary.None? <==> user.None?
    ensures summary.Some? ==> summary.value == SummaryOf(user.value, month, year, incomes, expenses)
  {
    if user.None? {
      return None;
    }
    var totalIncome := Total(incomes);
    var totalExpenses := Total(Amounts(expenses));
    var balance := totalIncome - totalExpenses;
    var highestExpense := Highest(Amounts(expenses));
    var categories := Categories(expenses);
    var keys, categoryCount := CountCategories(categories);
    assert categoryCount == CategoryCounts(categories);
    var topCategory := TopCategory(keys, categoryCount);
    var a := user.value;
    summary := Some(Summary(a.username, a.email, MonthNames[month - 1], year,
                            totalIncome, totalExpenses, balance,
                            CurrencyFormat.GetCurrencySymbol(Some(a.currency)),
                            |incomes| + |expenses|, highestExpense, topCategory));
  }

  /** What the summary states: sums, balance, highest expense, transaction count and
      a most frequent category (or "None"). */
  lemma SummaryFields(user: UserModel.Account, month: int, year: int, incomes: seq<real>, expenses: seq<Expense>)
    requires 1 <= month <= 12
    ensures var s := SummaryOf(user, month, year, incomes, expenses);
            s.balance == s.totalIncome - s.totalExpenses
            && s.transactionCount == |incomes| + |expenses|
            && s.month == MonthNames[month - 1]
            && (|expenses| == 0 ==> s.highestExpense == 0.0 && s.topCategory == "None")
            && (|expenses| > 0 ==>
                  (exists i :: 0 <= i < |expenses| && expenses[i].amount == s.highestExpense)
                  && (forall i :: 0 <= i < |expenses| ==> expenses[i].amount <= s.highestExpense)
                  && (exists i :: 0 <= i < |expenses| && expenses[i].category == s.topCategory))
  {
    var s := SummaryOf(user, month, year, incomes, expenses);
    var xs := Amounts(expenses);
    var categories := Categories(expenses);
    if |expenses| > 0 {
      assert s.highestExpense in xs;
      var i :| 0 <= i < |xs| && xs[i] == s.highestExpense;
      assert expenses[i].amount == s.highestExpense;
      forall j | 0 <= j < |expenses| ensures expenses[j].amount <= s.highestExpense {
        assert xs[j] in xs;
      }
      assert categories[0] in FirstAppearances(categories);
      assert s.topCategory in categories;
      var c :| 0 <= c < |categories| && categories[c] == s.topCategory;
      assert expenses[c].category == s.topCategory;
    }
  }

  /** The top category is counted at least as often as every other category. */
  lemma TopCategoryIsMostFrequent(user: UserModel.Account, month: int, year: int, incomes: seq<real>,
                                  expenses: seq<Expense>, other: string)
    requires 1 <= month <= 12 && |expenses| > 0
    ensures var categories := Categories(expenses);
            Occurrences(categories, other)
              <= Occurrences(categories, SummaryOf(user, month, year, incomes, expenses).topCategory)
  {
    var categories := Categories(expenses);
    assert categories[0] in FirstAppearances(categories);
    if other !in categories {
      OccursIffPositive(categories, other);
    }
  }

  // ---------------------------------------------------------------------------
  // sendMonthlySummaries
  // ---------------------------------------------------------------------------

  /** How `sendEmail` answered: success, a failure result, or a thrown error. */
  datatype Delivery = Delivered | Rejected | Threw

  /** A stored user with the month's records and the transport's answer for their mail. */
  datatype Member = Member(account: UserModel.Account, incomes: seq<real>, expenses: seq<Expense>, delivery: Delivery)

  /** A summary is mailed to a verified user who had at least one transaction. */
  predicate Mailed(m: Member)
  {
    m.account.verified && |m.incomes| + |m.expenses| > 0
  }

  /** One monthly-summary mail: the address and the summary handed to `sendEmail`. */
  datatype SummaryMail = SummaryMail(to: string, summary: Summary)

  /** The mails of a run over `ms`, in the order of the users. */
  function Mails(ms: seq<Member>, month: int, year: int): seq<SummaryMail>
    requires 1 <= month <= 12
  {
    if |ms| == 0 then []
    else
      var m := ms[|ms| - 1];
      Mails(ms[..|ms| - 1], month, year)
      + (if Mailed(m) then [SummaryMail(m.account.email, SummaryOf(m.account, month, year, m.incomes, m.expenses))]
         else [])
  }

  function Successes(ms: seq<Member>): nat
  {
    if |ms| == 0 then 0
    else Successes(ms[..|ms| - 1]) + (if Mailed(ms[|ms| - 1]) && ms[|ms| - 1].delivery == Delivered then 1 else 0)
  }

  function Errors(ms: seq<Member>): nat
  {
    if |ms| == 0 then 0
    else Errors(ms[..|ms| - 1]) + (if Mailed(ms[|ms| - 1]) && ms[|ms| - 1].delivery != Delivered then 1 else 0)
  }

  /** Every mailed user adds one to exactly one counter, so the counters add up to the
      number of mails, which is at most the number of users. */
  lemma {:induction false} CountersAddUp(ms: seq<Member>, month: int, year: int)
    requires 1 <= month <= 12
    ensures Successes(ms) + Errors(ms) == |Mails(ms, month, year)| <= |ms|
  {
    if |ms| > 0 {
      CountersAddUp(ms[..|ms| - 1], month, year);
    }
  }

  /** Every verified user with transactions is sent the summary of their own month, and
      every mail sent is such a summary: of the period, with at least one transaction. */
  lemma {:induction false} MailsCarrySummaries(ms: seq<Member>, month: int, year: int)
    requires 1 <= month <= 12
    ensures forall j :: 0 <= j < |ms| && Mailed(ms[j]) ==>
              SummaryMail(ms[j].account.email, SummaryOf(ms[j].account, month, year, ms[j].incomes, ms[j].expenses))
                in Mails(ms, month, year)
    ensures forall mail :: mail in Mails(ms, month, year) ==>
              mail.summary.month == MonthNames[month - 1] && mail.summary.year == year
              && mail.summary.transactionCount > 0
  {
    if |ms| > 0 {
      var init := ms[..|ms| - 1];
      MailsCarrySummaries(init, month, year);
      forall j | 0 <= j < |init| ensures init[j] == ms[j] { }
      var m := ms[|ms| - 1];
      if Mailed(m) {
        SummaryFields(m.account, month, year, m.incomes, m.expenses);
      }
    }
  }

  /** `sendMonthlySummaries`: summarise the previous month for every verified user and
      mail those who had transactions, counting delivered and failed mails. */
  method SendMonthlySummaries(monthIndex: int, fullYear: int, users: seq<Member>)
    returns (month: int, year: int, mails: seq<SummaryMail>, successCount: nat, errorCount: nat)
    requires 0 <= monthIndex < 12
    ensures (month, year) == SummaryPeriod(monthIndex, fullYear)
    ensures 1 <= month <= 12 && mails == Mails(users, month, year)
    ensures successCount == Successes(users) && errorCount == Errors(users)
    ensures successCount + errorCount == |mails| <= |users|
  {
    var lastMonth := monthIndex;
    year := if lastMonth == 0 then fullYear - 1 else fullYear;
    month := if lastMonth == 0 then 12 else lastMonth;
    mails := [];
    successCount := 0;
    errorCount := 0;
    var i := 0;
    while i < |users|
      invariant 0 <= i <= |users|
      invariant 1 <= month <= 12
      invariant mails == Mails(users[..i], month, year)
      invariant successCount == Successes(users[..i]) && errorCount == Errors(users[..i])
    {
      var user := users[i];
      assert users[..i + 1][..i] == users[..i];
      if user.account.verified {
        var summary := CalculateMonthlySummary(Some(user.account), month, year, user.incomes, user.expenses);
        if summary.Some? && summary.value.transactionCount > 0 {
          mails := mails + [SummaryMail(user.account.email, summary.value)];
          match user.delivery
          case Delivered => successCount := successCount + 1;
          case Rejected => errorCount := errorCount + 1;
          case Threw => errorCount := errorCount + 1;
        }
      }
      i := i + 1;
    }
    assert users[..i] == users;
    CountersAddUp(users, month, year);
  }
}
