/**
 * The dashboard figures of app/page.tsx: income and expense totals, the
 * balance, and the expense-by-category chart, each a `reduce` over the
 * fetched records.
 */
module Dashboard {
  import opened Wrappers
  import opened Domain
  import opened Grouping

  /** `Number(tx.amount || 0)`: a missing amount counts as zero. */
  function AmountOrZero(r: Row): int {
    r.amount.GetOr(0)
  }

  /** The record's type as sent, compared without normalisation. */
  function TypeOf(r: Row): string {
    r.txType
  }

  /** `tx.category || "Other"`: a missing or empty category is reported as "Other". */
  function CategoryName(r: Row): (c: string)
    ensures c != ""
    ensures r.category.Some? && r.category.value != "" ==> c == r.category.value
    ensures r.category.None? || r.category == Some("") ==> c == OtherCategory
  {
    match r.category
    case None => OtherCategory
    case Some(c) => if c == "" then OtherCategory else c
  }

  /** The sum of the amounts of `rows`, missing amounts as zero. */
  function SumAmounts(rows: seq<Row>): int {
    if rows == [] then 0 else SumAmounts(rows[..|rows| - 1]) + AmountOrZero(rows[|rows| - 1])
  }

  lemma SumAmountsAppend(rows: seq<Row>, r: Row)
    ensures SumAmounts(rows + [r]) == SumAmounts(rows) + AmountOrZero(r)
  {
    assert (rows + [r])[..|rows|] == rows;
  }

  /**
   * The totals' `reduce`: walk the records, adding the amount of each one
   * whose type is `kind` and skipping the others.
   */
  function KindTotal(rows: seq<Row>, kind: string): int {
    if rows == [] then 0
    else
      var last := rows[|rows| - 1];
      KindTotal(rows[..|rows| - 1], kind) + (if last.txType == kind then AmountOrZero(last) else 0)
  }

  /** `incomeTotal`. */
  function IncomeTotal(rows: seq<Row>): int {
    KindTotal(rows, Income)
  }

  /** `expenseTotal`. */
  function ExpenseTotal(rows: seq<Row>): int {
    KindTotal(rows, Expense)
  }

  /** The records of one type, in order. */
  function OfKind(rows: seq<Row>, kind: string): (r: seq<Row>)
    ensures forall i :: 0 <= i < |r| ==> r[i].txType == kind
  {
    Select(rows, TypeOf, kind)
  }

  /** A type total is the sum of the amounts of exactly the records of that type. */
  lemma {:induction false} KindTotalIsSum(rows: seq<Row>, kind: string)
    ensures KindTotal(rows, kind) == SumAmounts(OfKind(rows, kind))
    decreases |rows|
  {
    if rows != [] {
      var init := rows[..|rows| - 1];
      var last := rows[|rows| - 1];
      KindTotalIsSum(init, kind);
      assert TypeOf(last) == last.txType;
      if last.txType == kind {
        assert OfKind(rows, kind) == OfKind(init, kind) + [last];
        SumAmountsAppend(OfKind(init, kind), last);
      } else {
        assert OfKind(rows, kind) == OfKind(init, kind);
      }
    }
  }

  /** Totals are additive over concatenation: each record contributes once, wherever it sits. */
  lemma {:induction false} KindTotalAppend(a: seq<Row>, b: seq<Row>, kind: string)
    ensures KindTotal(a + b, kind) == KindTotal(a, kind) + KindTotal(b, kind)
    decreases |b|
  {
    if b == [] {
      assert a + b == a;
    } else {
      var init := b[..|b| - 1];
      assert (a + b)[..|a + b| - 1] == a + init;
      assert (a + b)[|a + b| - 1] == b[|b| - 1];
      KindTotalAppend(a, init, kind);
    }
  }

  // ---------------------------------------------------------------------------
  // Expenses by category

  /** One `{ name, value }` entry of `chartData`. */
  datatype ChartPoint = ChartPoint(name: string, value: int)

  function PointName(p: ChartPoint): string {
    p.name
  }

  /** Position of the entry called `name`, if there is one. */
  function PointIndex(acc: seq<ChartPoint>, name: string): (r: Option<nat>)
    ensures r.Some? ==> r.value < |acc| && acc[r.value].name == name
    ensures r.None? ==> forall j :: 0 <= j < |acc| ==> acc[j].name != name
  {
    var r := IndexOfName(acc, PointName, name);
    assert r.None? ==> forall j :: 0 <= j < |acc| ==> PointName(acc[j]) != name;
    r
  }

  /**
   * `acc[category] = (acc[category] || 0) + amount` on the insertion-ordered
   * record: an existing key keeps its place, a new key goes last.
   */
  function Bump(acc: seq<ChartPoint>, name: string, amount: int): (r: seq<ChartPoint>)
    ensures PointIndex(acc, name).None? ==> r == acc + [ChartPoint(name, amount)]
    ensures PointIndex(acc, name).Some? ==>
      var j := PointIndex(acc, name).value;
      r == acc[j := ChartPoint(name, acc[j].value + amount)]
  {
    match PointIndex(acc, name)
    case None => acc + [ChartPoint(name, amount)]
    case Some(j) => acc[j := ChartPoint(name, acc[j].value + amount)]
  }

  /** `Object.entries(expenseByCategory)` after the `reduce` that skips non-expense records. */
  function ExpenseByCategory(rows: seq<Row>): seq<ChartPoint> {
    if rows == [] then []
    else
      var acc := ExpenseByCategory(rows[..|rows| - 1]);
      var last := rows[|rows| - 1];
      if last.txType != Expense then acc else Bump(acc, CategoryName(last), AmountOrZero(last))
  }

  /** The sum of the chart's values. */
  function ValueSum(points: seq<ChartPoint>): int {
    if points == [] then 0 else ValueSum(points[..|points| - 1]) + points[|points| - 1].value
  }

  lemma {:induction false} ValueSumAppend(points: seq<ChartPoint>, p: ChartPoint)
    ensures ValueSum(points + [p]) == ValueSum(points) + p.value
  {
    assert (points + [p])[..|points|] == points;
  }

  lemma {:induction false} ValueSumUpdate(points: seq<ChartPoint>, j: nat, p: ChartPoint)
    requires j < |points|
    ensures ValueSum(points[j := p]) == ValueSum(points) - points[j].value + p.value
    decreases |points|
  {
    var last := |points| - 1;
    assert points == points[..last] + [points[last]];
    if j == last {
      assert points[j := p] == points[..last] + [p];
      ValueSumAppend(points[..last], p);
    } else {
      ValueSumUpdate(points[..last], j, p);
      assert points[j := p] == points[..last][j := p] + [points[last]];
      ValueSumAppend(points[..last][j := p], points[last]);
    }
    ValueSumAppend(points[..last], points[last]);
  }

  /** The chart's values add up to the expense total. */
  lemma {:induction false} ChartSumsToExpenses(rows: seq<Row>)
    ensures ValueSum(ExpenseByCategory(rows)) == ExpenseTotal(rows)
    decreases |rows|
  {
    if rows != [] {
      var init := rows[..|rows| - 1];
      var last := rows[|rows| - 1];
      ChartSumsToExpenses(init);
      if last.txType == Expense {
        var acc := ExpenseByCategory(init);
        var name := CategoryName(last);
        match PointIndex(acc, name)
        case None => ValueSumAppend(acc, ChartPoint(name, AmountOrZero(last)));
        case Some(j) => ValueSumUpdate(acc, j, ChartPoint(name, acc[j].value + AmountOrZero(last)));
      }
    }
  }

  /** The chart of a grouping: one entry per bucket, its name and its amount total. */
  function Points(gs: seq<Group<Row>>): (r: seq<ChartPoint>)
    ensures |r| == |gs|
    ensures forall j :: 0 <= j < |gs| ==> r[j] == ChartPoint(gs[j].name, SumAmounts(gs[j].items))
  {
    seq(|gs|, j requires 0 <= j < |gs| => ChartPoint(gs[j].name, SumAmounts(gs[j].items)))
  }

  /** The chart entry of a name sits where the grouping's bucket of that name does. */
  lemma PointIndexOfPoints(gs: seq<Group<Row>>, name: string)
    ensures PointIndex(Points(gs), name) == BucketIndex(gs, name)
  {
    var ps := Points(gs);
    var a := IndexOfName(ps, PointName, name);
    var b := IndexOfName(gs, GroupName, name);
    assert forall j :: 0 <= j < |gs| ==> PointName(ps[j]) == GroupName(gs[j]);
  }

  /** Totalling a grouping with a new one-record bucket appends that record's entry. */
  lemma PointsNewBucket(gs: seq<Group<Row>>, name: string, r: Row)
    ensures Points(gs + [Group(name, [r])]) == Points(gs) + [ChartPoint(name, AmountOrZero(r))]
  {
    SumAmountsAppend([], r);
    assert [] + [r] == [r];
  }

  /** Totalling a grouping whose bucket `j` took one more record adds that record's amount to entry `j`. */
  lemma PointsGrownBucket(gs: seq<Group<Row>>, j: nat, r: Row)
    requires j < |gs|
    ensures Points(gs[j := Group(gs[j].name, gs[j].items + [r])]) ==
      Points(gs)[j := ChartPoint(gs[j].name, Points(gs)[j].value + AmountOrZero(r))]
  {
    SumAmountsAppend(gs[j].items, r);
  }

  /** Pushing a record into a bucket and then totalling equals bumping the total. */
  lemma PointsPush(gs: seq<Group<Row>>, r: Row)
    ensures Points(Push(gs, CategoryName(r), r)) == Bump(Points(gs), CategoryName(r), AmountOrZero(r))
  {
    var name := CategoryName(r);
    PointIndexOfPoints(gs, name);
    match BucketIndex(gs, name)
    case None =>
      PointsNewBucket(gs, name, r);
    case Some(j) =>
      PointsGrownBucket(gs, j, r);
  }

  /**
   * The chart as a definition: the expense records grouped by category name
   * in order of first appearance, each group's entry carrying its total.
   */
  lemma {:induction false} ChartIsGroupedExpenses(rows: seq<Row>)
    ensures ExpenseByCategory(rows) == Points(Grouped(OfKind(rows, Expense), CategoryName))
    decreases |rows|
  {
    if rows != [] {
      var init := rows[..|rows| - 1];
      var last := rows[|rows| - 1];
      assert rows == init + [last];
      ChartIsGroupedExpenses(init);
      SelectAppend(init, last, TypeOf, Expense);
      if last.txType == Expense {
        GroupedStep(OfKind(init, Expense), last, CategoryName);
        PointsPush(Grouped(OfKind(init, Expense), CategoryName), last);
      }
    }
  }

  /**
   * The chart's names are distinct, in order of first appearance among the
   * expense records, and each value is the total of the expense records
   * reported under that name.
   */
  lemma ChartEntries(rows: seq<Row>)
    ensures var chart := ExpenseByCategory(rows);
      var names := FirstOccurrences(Labels(OfKind(rows, Expense), CategoryName));
      && |chart| == |names|
      && (forall j :: 0 <= j < |chart| ==> chart[j].name == names[j])
      && (forall j :: 0 <= j < |chart| ==>
            chart[j].value == SumAmounts(Select(OfKind(rows, Expense), CategoryName, names[j])))
    ensures forall i, j :: 0 <= i < j < |ExpenseByCategory(rows)| ==>
      ExpenseByCategory(rows)[i].name != ExpenseByCategory(rows)[j].name
  {
    ChartIsGroupedExpenses(rows);
  }

  /** A record that is not an expense changes neither the expense total nor the chart. */
  lemma NonExpenseIgnored(rows: seq<Row>, r: Row)
    requires r.txType != Expense
    ensures ExpenseTotal(rows + [r]) == ExpenseTotal(rows)
    ensures ExpenseByCategory(rows + [r]) == ExpenseByCategory(rows)
  {
    assert (rows + [r])[..|rows|] == rows;
  }

  // ---------------------------------------------------------------------------
  // The figures the page shows

  datatype Summary = Summary(
    balance: int,
    income: int,
    expenses: int,
    chartData: seq<ChartPoint>,
    hasTransactions: bool)

  /** The object the dashboard stores after fetching `rows`. */
  function Summarize(rows: seq<Row>): (s: Summary)
    ensures s.income == SumAmounts(OfKind(rows, Income))
    ensures s.expenses == SumAmounts(OfKind(rows, Expense))
    ensures s.balance == s.income - s.expenses
    ensures s.chartData == ExpenseByCategory(rows)
    ensures ValueSum(s.chartData) == s.expenses
    ensures s.hasTransactions <==> |rows| > 0
  {
    KindTotalIsSum(rows, Income);
    KindTotalIsSum(rows, Expense);
    ChartSumsToExpenses(rows);
    var income := IncomeTotal(rows);
    var expenses := ExpenseTotal(rows);
    Summary(income - expenses, income, expenses, ExpenseByCategory(rows), |rows| > 0)
  }
}
