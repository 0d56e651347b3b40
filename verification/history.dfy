/**
 * The transaction history page of app/transactions/page.tsx: the fetched
 * records normalised, grouped into month buckets, and the fallbacks the
 * table and the cards display. Locale formatting is a parameter: `monthName`
 * names a month of a year and `currency` writes an amount in cents.
 */
module History {
  import opened Wrappers
  import opened Calendar
  import opened Text
  import opened Domain
  import opened Grouping
  import opened Dashboard

  /** The bucket of records without a date. */
  const UnknownMonth: string := "Unknown"

  /** The text shown for a missing title or date. */
  const NotAvailable: string := "N/A"

  /** The fetched record with its type lower-cased; every other field is kept as sent. */
  function Normalise(r: Row): (n: Row)
    ensures n.txType == Lower(r.txType)
    ensures n.(txType := r.txType) == r
    ensures n.date.None? <==> r.date.None?
  {
    r.(txType := Lower(r.txType))
  }

  /** Normalising twice is normalising once, and a record with a lower-case type is left as it is. */
  lemma NormaliseIdempotent(r: Row)
    ensures Normalise(Normalise(r)) == Normalise(r)
    ensures Lower(r.txType) == r.txType ==> Normalise(r) == r
  {
    LowerIdempotent(r.txType);
  }

  /** A stored "INCOME" or "Expense" counts as income or expense once normalised. */
  lemma NormaliseRecognisesTypes(r: Row)
    requires Lower(r.txType) == Income || Lower(r.txType) == Expense
    ensures Normalise(r).txType in TransactionTypes
  {
  }

  /** `getMonthYear`: the month label of a date, "Unknown" for none. */
  function MonthYear(date: Option<Date>, monthName: (int, int) -> string): (m: string)
    ensures date.None? ==> m == UnknownMonth
    ensures date.Some? ==> m == monthName(date.value.year, date.value.month)
  {
    match date
    case None => UnknownMonth
    case Some(d) => monthName(d.year, d.month)
  }

  /** The bucket key of a record. */
  function MonthKey(monthName: (int, int) -> string): Row -> string {
    (r: Row) => MonthYear(r.date, monthName)
  }

  /** A month label names one month of one year, and never reads "Unknown". */
  ghost predicate FaithfulLabel(monthName: (int, int) -> string) {
    && (forall y1, m1, y2, m2 :: monthName(y1, m1) == monthName(y2, m2) ==> y1 == y2 && m1 == m2)
    && (forall y, m :: monthName(y, m) != UnknownMonth)
  }

  /** Two optional dates fall in the same month of the same year, or are both missing. */
  predicate SameMonth(a: Option<Date>, b: Option<Date>) {
    || (a.None? && b.None?)
    || (a.Some? && b.Some? && a.value.year == b.value.year && a.value.month == b.value.month)
  }

  /** With a faithful label, two records get the same month label exactly when they fall in the same month. */
  lemma MonthYearIffSameMonth(monthName: (int, int) -> string, a: Option<Date>, b: Option<Date>)
    requires FaithfulLabel(monthName)
    ensures MonthYear(a, monthName) == MonthYear(b, monthName) <==> SameMonth(a, b)
  {
  }

  /**
   * `groupTransactionsByMonth` with `Object.keys`: one bucket per month label
   * in order of first occurrence, every record in the bucket of its own
   * label, in input order.
   */
  method GroupTransactionsByMonth(rows: seq<Row>, monthName: (int, int) -> string) returns (groups: seq<Group<Row>>)
    ensures groups == Grouped(rows, MonthKey(monthName))
    ensures TotalSize(groups) == |rows|
    ensures forall i, j :: 0 <= i < j < |groups| ==> groups[i].name != groups[j].name
    ensures forall j :: 0 <= j < |groups| ==>
      && |groups[j].items| > 0
      && Subsequence(groups[j].items, rows)
      && (forall k :: 0 <= k < |groups[j].items| ==> MonthYear(groups[j].items[k].date, monthName) == groups[j].name)
  {
    groups := GroupBy(rows, MonthKey(monthName));
    GroupedSizes(rows, MonthKey(monthName));
    GroupedShape(rows, MonthKey(monthName));
    forall j | 0 <= j < |groups|
      ensures Subsequence(groups[j].items, rows)
      ensures forall k :: 0 <= k < |groups[j].items| ==> MonthYear(groups[j].items[k].date, monthName) == groups[j].name
    {
      SelectSubsequence(rows, MonthKey(monthName), groups[j].name);
    }
  }

  /**
   * With a faithful label two records share a bucket exactly when they fall
   * in the same month, and every undated record is in the "Unknown" bucket.
   */
  lemma SharedMonthBucket(rows: seq<Row>, monthName: (int, int) -> string, a: nat, b: nat)
    requires FaithfulLabel(monthName) && a < |rows| && b < |rows|
    ensures (exists j :: 0 <= j < |Grouped(rows, MonthKey(monthName))|
               && rows[a] in Grouped(rows, MonthKey(monthName))[j].items
               && rows[b] in Grouped(rows, MonthKey(monthName))[j].items)
      <==> SameMonth(rows[a].date, rows[b].date)
    ensures rows[a].date.None? ==>
      exists j :: (0 <= j < |Grouped(rows, MonthKey(monthName))|
        && Grouped(rows, MonthKey(monthName))[j].name == UnknownMonth
        && rows[a] in Grouped(rows, MonthKey(monthName))[j].items)
  {
    SharedBucket(rows, MonthKey(monthName), a, b);
    MonthYearIffSameMonth(monthName, rows[a].date, rows[b].date);
    ItemsInOwnBucket(rows, MonthKey(monthName), a);
  }

  /** The month headings come out in the order in which each month first occurs. */
  lemma MonthsInFirstOccurrenceOrder(rows: seq<Row>, monthName: (int, int) -> string, i: nat, j: nat)
    requires i < j < |Grouped(rows, MonthKey(monthName))|
    ensures var names := Labels(rows, MonthKey(monthName));
      var gs := Grouped(rows, MonthKey(monthName));
      gs[i].name in names && gs[j].name in names && FirstIndex(names, gs[i].name) < FirstIndex(names, gs[j].name)
  {
    FirstOccurrencesOrdered(Labels(rows, MonthKey(monthName)), i, j);
  }

  // ---------------------------------------------------------------------------
  // Display rules

  function Abs(n: int): nat {
    if n < 0 then -n else n
  }

  /** `"+"` for income and `"-"` for anything else, then the formatted magnitude. */
  function SignedAmount(r: Row, currency: nat -> string): (s: string)
    ensures |s| >= 1
    ensures s[0] == '+' <==> r.txType == Income
    ensures s[0] == '+' || s[0] == '-'
    ensures s[1..] == currency(Abs(AmountOrZero(r)))
  {
    (if r.txType == Income then "+" else "-") + currency(Abs(AmountOrZero(r)))
  }

  /** The sign shown comes from the type alone: the stored sign of the amount is dropped. */
  lemma SignComesFromType(r: Row, a: int, currency: nat -> string)
    ensures SignedAmount(r.(amount := Some(-a)), currency) == SignedAmount(r.(amount := Some(a)), currency)
    ensures SignedAmount(r.(amount := None), currency) == SignedAmount(r.(amount := Some(0)), currency)
  {
  }

  /** `formatDate`: the formatted day, "N/A" for none. */
  function DateText(date: Option<Date>, format: Date -> string): (s: string)
    ensures date.None? ==> s == NotAvailable
    ensures date.Some? ==> s == format(date.value)
  {
    match date
    case None => NotAvailable
    case Some(d) => format(d)
  }

  /** `tx.title || "N/A"`. */
  function TitleText(title: Option<string>): (s: string)
    ensures s != ""
    ensures title.Some? && title.value != "" ==> s == title.value
    ensures title.None? || title == Some("") ==> s == NotAvailable
  {
    match title
    case None => NotAvailable
    case Some(t) => if t == "" then NotAvailable else t
  }

  /** `tx.category || t.otherCategory`: the translated "other" label for a missing category. */
  function CategoryText(category: Option<string>, otherLabel: string): (s: string)
    ensures category.Some? && category.value != "" ==> s == category.value
    ensures category.None? || category == Some("") ==> s == otherLabel
  {
    match category
    case None => otherLabel
    case Some(c) => if c == "" then otherLabel else c
  }

  /** The history page and the dashboard agree on a missing category when the page's label is "Other". */
  lemma CategoryTextAgreesWithChart(r: Row)
    ensures CategoryText(r.category, OtherCategory) == CategoryName(r)
  {
  }
}
