/**
 * frontend/src/pages/ProtectedPages/MainDashboard.jsx: the figures the dashboard derives
 * from the income and expense queries — the balance, the three most recent transactions
 * and the rows of the income/expense chart.
 *
 * A query answer is `None` while it is not loaded. Dates are timestamps; formatting them
 * for the chart label is not modelled, the label keeps the timestamp.
 */
module Dashboard {
  import opened Common
  import MonthlySummary

  datatype Transaction = Transaction(date: int, amount: real)

  /** The answer of the income query (`totalIncome`, `incomes`) or of the expense query
      (`totalExpense`, `expenses`); a missing total is `None`. */
  datatype QueryData = QueryData(total: Option<real>, items: seq<Transaction>)

  datatype Kind = IncomeKind | ExpenseKind

  /** A transaction copied with its `type` tag. */
  datatype Entry = Entry(txn: Transaction, kind: Kind)

  datatype Label = Unavailable | Day(date: int)

  datatype Row = Row(name: Label, income: real, expense: real)

  // ---------------------------------------------------------------------------
  // Balance
  // ---------------------------------------------------------------------------

  /** `data?.total || 0`: a query not loaded, or a missing total, counts as 0. */
  function TotalOrZero(data: Option<QueryData>): (r: real)
    ensures data.None? || data.value.total.None? ==> r == 0.0
    ensures data.Some? && data.value.total.Some? ==> r == data.value.total.value
  {
    match data
    case None => 0.0
    case Some(d) => if d.total.Some? then d.total.value else 0.0
  }

  /** The displayed balance: income total minus expense total, a missing total as 0. */
  function Balance(incomeData: Option<QueryData>, expenseData: Option<QueryData>): (r: real)
    ensures incomeData.Some? && incomeData.value.total.Some? && expenseData.Some? && expenseData.value.total.Some? ==>
              r == incomeData.value.total.value - expenseData.value.total.value
    ensures (incomeData.None? || incomeData.value.total.None?) ==> r == -TotalOrZero(expenseData)
    ensures (expenseData.None? || expenseData.value.total.None?) ==> r == TotalOrZero(incomeData)
  {
    TotalOrZero(incomeData) - TotalOrZero(expenseData)
  }

  // ---------------------------------------------------------------------------
  // Recent history
  // ---------------------------------------------------------------------------

  function ItemsOrEmpty(data: Option<QueryData>): seq<Transaction>
  {
    if data.Some? then data.value.items else []
  }

  /** Each transaction copied with the given tag. */
  function Tag(txns: seq<Transaction>, kind: Kind): (r: seq<Entry>)
    ensures |r| == |txns|
    ensures forall i :: 0 <= i < |r| ==> r[i].txn == txns[i] && r[i].kind == kind
  {
    seq(|txns|, i requires 0 <= i < |txns| => Entry(txns[i], kind))
  }

  /** The merged history: every income tagged as income, then every expense as expense. */
  function History(incomeData: Option<QueryData>, expenseData: Option<QueryData>): (r: seq<Entry>)
    ensures |r| == |ItemsOrEmpty(incomeData)| + |ItemsOrEmpty(expenseData)|
  {
    Tag(ItemsOrEmpty(incomeData), IncomeKind) + Tag(ItemsOrEmpty(expenseData), ExpenseKind)
  }

  /** The merged history holds each loaded transaction once, with the tag of its query:
      the incomes first, then the expenses. */
  lemma HistoryTagsEveryTransaction(incomeData: Option<QueryData>, expenseData: Option<QueryData>)
    ensures |History(incomeData, expenseData)| == |ItemsOrEmpty(incomeData)| + |ItemsOrEmpty(expenseData)|
    ensures forall i :: 0 <= i < |ItemsOrEmpty(incomeData)| ==>
              History(incomeData, expenseData)[i] == Entry(ItemsOrEmpty(incomeData)[i], IncomeKind)
    ensures forall i :: |ItemsOrEmpty(incomeData)| <= i < |History(incomeData, expenseData)| ==>
              History(incomeData, expenseData)[i]
                == Entry(ItemsOrEmpty(expenseData)[i - |ItemsOrEmpty(incomeData)|], ExpenseKind)
  {
  }

  predicate NewestFirst(s: seq<Entry>)
  {
    forall x, y :: 0 <= x < y < |s| ==> s[x].txn.date >= s[y].txn.date
  }

  /** Exchanges the entry at `i` with the one before it. */
  method SwapWithPrevious(a: array<Entry>, i: int)
    requires 0 < i < a.Length
    modifies a
    ensures a[i - 1] == old(a[i]) && a[i] == old(a[i - 1])
    ensures forall m :: 0 <= m < a.Length && m != i - 1 && m != i ==> a[m] == old(a[m])
    ensures multiset(a[..]) == multiset(old(a[..]))
  {
    a[i - 1], a[i] := a[i], a[i - 1];
  }

  /** One insertion step: moves `a[i]` before every older entry of the sorted prefix. */
  method InsertNewest(a: array<Entry>, i: int)
    requires 0 <= i < a.Length && NewestFirst(a[..i])
    modifies a
    ensures NewestFirst(a[..i + 1])
    ensures forall m :: i < m < a.Length ==> a[m] == old(a[m])
    ensures multiset(a[..]) == multiset(old(a[..]))
  {
    var j := i;
    while j > 0 && a[j - 1].txn.date < a[j].txn.date
      invariant 0 <= j <= i
      invariant forall m :: i < m < a.Length ==> a[m] == old(a[m])
      invariant multiset(a[..]) == multiset(old(a[..]))
      invariant forall x, y :: 0 <= x < y <= i && y != j ==> a[x].txn.date >= a[y].txn.date
      invariant 0 < j < i ==> a[j - 1].txn.date >= a[j + 1].txn.date
    {
      SwapWithPrevious(a, j);
      j := j - 1;
    }
  }

  /** `recentHistory.sort((a, b) => b.date - a.date)`: in place, newest first. */
  method SortNewestFirst(a: array<Entry>)
    modifies a
    ensures NewestFirst(a[..])
    ensures multiset(a[..]) == multiset(old(a[..]))
  {
    var i := 0;
    while i < a.Length
      invariant 0 <= i <= a.Length
      invariant NewestFirst(a[..i])
      invariant multiset(a[..]) == multiset(old(a[..]))
    {
      InsertNewest(a, i);
      i := i + 1;
    }
    assert a[..i] == a[..];
  }

  function Min(a: int, b: int): int
  {
    if a < b then a else b
  }

  /** `recent` is the `Min(3, |h|)` newest entries of `h`, newest first. */
  predicate NewestThree(recent: seq<Entry>, h: seq<Entry>)
  {
    |recent| == Min(3, |h|)
    && NewestFirst(recent)
    && multiset(recent) <= multiset(h)
    && forall e, r :: e in multiset(h) - multiset(recent) && r in recent ==> e.txn.date <= r.txn.date
  }

  /** The first `k` entries of a newest-first sequence are at least as new as the rest. */
  lemma PrefixIsNewest(s: seq<Entry>, k: nat)
    requires NewestFirst(s) && k <= |s|
    ensures multiset(s[..k]) <= multiset(s)
    ensures forall e, r :: e in multiset(s) - multiset(s[..k]) && r in s[..k] ==> e.txn.date <= r.txn.date
  {
    assert s == s[..k] + s[k..];
    assert multiset(s) == multiset(s[..k]) + multiset(s[k..]);
    forall e, r | e in multiset(s) - multiset(s[..k]) && r in s[..k]
      ensures e.txn.date <= r.txn.date
    {
      assert e in multiset(s[k..]);
      assert e in s[k..];
      var y :| 0 <= y < |s[k..]| && s[k..][y] == e;
      var x :| 0 <= x < k && s[..k][x] == r;
      assert s[x] == r && s[k + y] == e;
    }
  }

  /** `recentHistory.sort(...)` followed by `slice(0, 3)`. */
  method RecentTransactions(h: seq<Entry>) returns (recent: seq<Entry>)
    ensures NewestThree(recent, h)
  {
    var a := new Entry[|h|](i requires 0 <= i < |h| => h[i]);
    assert a[..] == h;
    SortNewestFirst(a);
    var sorted := a[..];
    var k := Min(3, |sorted|);
    PrefixIsNewest(sorted, k);
    recent := sorted[..k];
  }

  /** The dashboard's derived state. */
  class DashboardPage {
    var totalBalance: real
    var totalIncome: Option<real>
    var totalExpense: Option<real>
    var recentHistory: seq<Entry>

    /** The initial state: zero totals and no history. */
    constructor ()
      ensures totalBalance == 0.0 && totalIncome == Some(0.0) && totalExpense == Some(0.0)
      ensures recentHistory == []
    {
      totalBalance := 0.0;
      totalIncome := Some(0.0);
      totalExpense := Some(0.0);
      recentHistory := [];
    }

    /** `fetchData` once both queries have answered: the totals are copied from a loaded
        query, the balance counts a missing total as 0, and the recent history is the
        three newest entries of the merged history, newest first. */
    method FetchData(incomeData: Option<QueryData>, expenseData: Option<QueryData>)
      modifies this
      ensures totalIncome == (if incomeData.Some? then incomeData.value.total else old(totalIncome))
      ensures totalExpense == (if expenseData.Some? then expenseData.value.total else old(totalExpense))
      ensures totalBalance == Balance(incomeData, expenseData)
      ensures NewestThree(recentHistory, History(incomeData, expenseData))
    {
      if incomeData.Some? {
        totalIncome := incomeData.value.total;
      }
      if expenseData.Some? {
        totalExpense := expenseData.value.total;
      }
      totalBalance := TotalOrZero(incomeData) - TotalOrZero(expenseData);
      recentHistory := RecentTransactions(History(incomeData, expenseData));
    }
  }

  // ---------------------------------------------------------------------------
  // Chart rows
  // ---------------------------------------------------------------------------

  /** The chart `data`: one placeholder row when either list is empty, otherwise one row
      per income, paired with the expense at the same index or 0. */
  function ChartRows(incomeData: Option<QueryData>, expenseData: Option<QueryData>): (rows: seq<Row>)
    ensures var ins := ItemsOrEmpty(incomeData);
            var exs := ItemsOrEmpty(expenseData);
            (|ins| == 0 || |exs| == 0 ==> rows == [Row(Unavailable, 0.0, 0.0)])
            && (|ins| > 0 && |exs| > 0 ==>
                  |rows| == |ins|
                  && forall i :: 0 <= i < |rows| ==>
                       rows[i].name == Day(ins[i].date) && rows[i].income == ins[i].amount
                       && rows[i].expense == (if i < |exs| then exs[i].amount else 0.0))
  {
    var ins := ItemsOrEmpty(incomeData);
    var exs := ItemsOrEmpty(expenseData);
    if |ins| == 0 || |exs| == 0 then [Row(Unavailable, 0.0, 0.0)]
    else seq(|ins|, i requires 0 <= i < |ins| =>
               Row(Day(ins[i].date), ins[i].amount, if i < |exs| then exs[i].amount else 0.0))
  }

  function RowIncomes(rows: seq<Row>): (r: seq<real>)
    ensures |r| == |rows|
  {
    seq(|rows|, i requires 0 <= i < |rows| => rows[i].income)
  }

  function RowExpenses(rows: seq<Row>): (r: seq<real>)
    ensures |r| == |rows|
  {
    seq(|rows|, i requires 0 <= i < |rows| => rows[i].expense)
  }

  function AmountsOf(txns: seq<Transaction>): (r: seq<real>)
    ensures |r| == |txns|
  {
    seq(|txns|, i requires 0 <= i < |txns| => txns[i].amount)
  }

  lemma {:induction false} TotalOfZeros(n: nat)
    ensures MonthlySummary.Total(seq(n, i => 0.0)) == 0.0
  {
    if n > 0 {
      assert seq(n, i => 0.0)[..n - 1] == seq(n - 1, i => 0.0);
      TotalOfZeros(n - 1);
    }
  }

  /** With both lists loaded, the chart shows every income, and of the expenses exactly
      those whose index has an income: the rest are dropped and missing ones count 0. */
  lemma ChartTotals(incomeData: Option<QueryData>, expenseData: Option<QueryData>)
    requires |ItemsOrEmpty(incomeData)| > 0 && |ItemsOrEmpty(expenseData)| > 0
    ensures var rows := ChartRows(incomeData, expenseData);
            var ins := ItemsOrEmpty(incomeData);
            var exs := ItemsOrEmpty(expenseData);
            MonthlySummary.Total(RowIncomes(rows)) == MonthlySummary.Total(AmountsOf(ins))
            && MonthlySummary.Total(RowExpenses(rows))
                 == MonthlySummary.Total(AmountsOf(exs[..Min(|ins|, |exs|)]))
  {
    var rows := ChartRows(incomeData, expenseData);
    var ins := ItemsOrEmpty(incomeData);
    var exs := ItemsOrEmpty(expenseData);
    assert RowIncomes(rows) == AmountsOf(ins);
    var k := Min(|ins|, |exs|);
    var paired := AmountsOf(exs[..k]);
    var padding := seq(|ins| - k, i => 0.0);
    assert RowExpenses(rows) == paired + padding;
    MonthlySummary.TotalAppend(paired, padding);
    TotalOfZeros(|ins| - k);
  }
}
