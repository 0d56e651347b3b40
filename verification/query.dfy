/**
 * The read endpoint of app/api/transactions/route.ts: the signed-in user's
 * transactions restricted by the `year`, `query`, `category` and `date` URL
 * parameters, newest day first. The datastore is a sequence of rows and
 * `findMany` is a filter followed by a sort.
 */
module Query {
  import opened Wrappers
  import opened Text
  import opened Calendar
  import opened Seqs
  import opened Domain

  /** URL search parameters, one value per key. */
  type Params = map<string, string>

  /** The earliest year the endpoint serves. */
  const MinYear: int := 2023

  /** `searchParams.get(key)`: the value, or `null` when the key is absent. */
  function Param(p: Params, key: string): Option<string> {
    if key in p then Some(p[key]) else None
  }

  /** `searchParams.get(key) || ''`. */
  function ParamOrEmpty(p: Params, key: string): string {
    Param(p, key).GetOr("")
  }

  /**
   * The year the listing is restricted to: the `year` parameter read with
   * `parseInt` when that gives a number in [MinYear, currentYear], and
   * `currentYear` in every other case, never an error.
   */
  function SelectedYear(year: Option<string>, currentYear: int): (y: int)
    ensures y == currentYear || MinYear <= y <= currentYear
    ensures (year.None? || year == Some("") || ParseInt(year.value).None?) ==> y == currentYear
    ensures year.Some? && year.value != "" && ParseInt(year.value).Some? ==>
      var v := ParseInt(year.value).value;
      y == (if MinYear <= v <= currentYear then v else currentYear)
  {
    if year.Some? && year.value != "" then
      match ParseInt(year.value)
      case Some(parsed) => if parsed <= currentYear && parsed >= MinYear then parsed else currentYear
      case None => currentYear
    else currentYear
  }

  /** A year written in decimal is selected when it lies in [MinYear, currentYear]; any other gives `currentYear`. */
  lemma SelectedYearOfDecimal(n: nat, currentYear: int)
    ensures SelectedYear(Some(NatToDecimal(n)), currentYear) == if MinYear <= n <= currentYear then n else currentYear
  {
    ParseIntOfDecimal(n);
  }

  /** A year behind any white space `parseInt` skips, an em space (U+2003) say, is read as the year itself. */
  lemma SelectedYearSkipsSpace(c: char, n: nat, currentYear: int)
    requires IsSpace(c)
    ensures SelectedYear(Some([c] + NatToDecimal(n)), currentYear) == if MinYear <= n <= currentYear then n else currentYear
  {
    ParseIntSkipsSpace(c, NatToDecimal(n));
    ParseIntOfDecimal(n);
  }

  // ---------------------------------------------------------------------------
  // The where clause

  /** An inclusive range of days. */
  datatype DayRange = DayRange(gte: Date, lte: Date)

  /** The `where` object handed to the datastore. */
  datatype Where = Where(userId: string, date: DayRange, title: Option<string>, category: Option<string>)

  /**
   * The `where` clause: owner, the year window, a title restriction for a
   * non-empty `query`, a category restriction unless it is empty or the
   * "All Categories" sentinel, and a `date` that overwrites the year window
   * with that single day. `None` is a clause whose day is an Invalid Date,
   * which the datastore rejects.
   */
  function BuildWhere(userId: string, p: Params, currentYear: int): Option<Where> {
    var year := SelectedYear(Param(p, "year"), currentYear);
    var query := ParamOrEmpty(p, "query");
    var category := ParamOrEmpty(p, "category");
    var date := ParamOrEmpty(p, "date");
    var yearWindow := DayRange(Date(year, 1, 1), Date(year, 12, 31));
    var title := if query != "" then Some(query) else None;
    var cat := if category != "" && category != AllCategories then Some(category) else None;
    if date == "" then Some(Where(userId, yearWindow, title, cat))
    else
      match ParseIsoDate(date)
      case None => None
      case Some(d) => Some(Where(userId, DayRange(d, d), title, cat))
  }

  /** The datastore's reading of a `where` clause: every present restriction holds. */
  predicate Matches(w: Where, t: Transaction) {
    && t.userId == w.userId
    && NotAfter(w.date.gte, t.date) && NotAfter(t.date, w.date.lte)
    && (w.title.None? || ContainsInsensitive(t.title, w.title.value))
    && (w.category.None? || t.category == w.category.value)
  }

  /**
   * The listing's meaning, stated directly on the parameters: owned by the
   * caller; on the `date` day when one is given, otherwise within the selected
   * year; title containing `query` ignoring case; category equal to
   * `category` unless that is empty or the sentinel.
   */
  predicate Selected(userId: string, p: Params, currentYear: int, t: Transaction) {
    var year := SelectedYear(Param(p, "year"), currentYear);
    var query := ParamOrEmpty(p, "query");
    var category := ParamOrEmpty(p, "category");
    var date := ParamOrEmpty(p, "date");
    && t.userId == userId
    && (if date != "" then ParseIsoDate(date) == Some(t.date)
        else NotAfter(Date(year, 1, 1), t.date) && NotAfter(t.date, Date(year, 12, 31)))
    && (query == "" || ContainsInsensitive(t.title, query))
    && (category == "" || category == AllCategories || t.category == category)
  }

  /** The assembled clause selects exactly the rows the parameters describe. */
  lemma BuildWhereMeaning(userId: string, p: Params, currentYear: int, t: Transaction)
    requires BuildWhere(userId, p, currentYear).Some?
    ensures Matches(BuildWhere(userId, p, currentYear).value, t) <==> Selected(userId, p, currentYear, t)
  {
    var date := ParamOrEmpty(p, "date");
    if date != "" {
      var d := ParseIsoDate(date).value;
      NotAfterTotalOrder(d, t.date, t.date);
    }
  }

  // ---------------------------------------------------------------------------
  // Ordering

  /** Newest day first: no row is followed by a later one. */
  ghost predicate SortedByDateDesc(s: seq<Transaction>) {
    forall i, j :: 0 <= i < j < |s| ==> NotAfter(s[j].date, s[i].date)
  }

  /** Places `t` before the first row that is not later than it. */
  function InsertByDateDesc(t: Transaction, s: seq<Transaction>): (r: seq<Transaction>)
    requires SortedByDateDesc(s)
    ensures SortedByDateDesc(r)
    ensures multiset(r) == multiset(s) + multiset{t}
    ensures |r| == |s| + 1
  {
    if s == [] then [t]
    else if NotAfter(s[0].date, t.date) then
      HeadBoundsAll(s, t);
      [t] + s
    else
      var rest := InsertByDateDesc(t, s[1..]);
      assert s == [s[0]] + s[1..];
      HeadBoundsInserted(s, t, rest);
      [s[0]] + rest
  }

  /** When the newest row is not later than `t`, no row is. */
  lemma HeadBoundsAll(s: seq<Transaction>, t: Transaction)
    requires SortedByDateDesc(s) && s != [] && NotAfter(s[0].date, t.date)
    ensures forall j :: 0 <= j < |s| ==> NotAfter(s[j].date, t.date)
  {
    forall j | 0 <= j < |s| ensures NotAfter(s[j].date, t.date) {
      NotAfterTotalOrder(s[j].date, s[0].date, t.date);
    }
  }

  /** When `t` is later than the newest row, that row is not later than anything among the others and `t`. */
  lemma HeadBoundsInserted(s: seq<Transaction>, t: Transaction, rest: seq<Transaction>)
    requires SortedByDateDesc(s) && s != [] && !NotAfter(s[0].date, t.date)
    requires multiset(rest) == multiset(s[1..]) + multiset{t}
    ensures forall j :: 0 <= j < |rest| ==> NotAfter(rest[j].date, s[0].date)
  {
    forall j | 0 <= j < |rest| ensures NotAfter(rest[j].date, s[0].date) {
      assert rest[j] in multiset(rest);
      if rest[j] == t {
        NotAfterTotalOrder(t.date, s[0].date, t.date);
      } else {
        assert rest[j] in s[1..];
        var k :| 0 <= k < |s[1..]| && s[1..][k] == rest[j];
        assert s[k + 1] == rest[j];
      }
    }
  }

  /** `orderBy: { date: 'desc' }`: the same rows, newest day first. */
  function SortByDateDesc(s: seq<Transaction>): (r: seq<Transaction>)
    ensures SortedByDateDesc(r)
    ensures multiset(r) == multiset(s)
    ensures |r| == |s|
  {
    if s == [] then []
    else
      assert s == [s[0]] + s[1..];
      InsertByDateDesc(s[0], SortByDateDesc(s[1..]))
  }

  // ---------------------------------------------------------------------------
  // The handler

  /** The endpoint's answer: 401, 500, or the JSON listing. */
  datatype ApiResponse = Unauthorized | ServerError | Listing(transactions: seq<Transaction>) {
    function Status(): int {
      match this
      case Unauthorized => 401
      case ServerError => 500
      case Listing(_) => 200
    }
  }

  /**
   * `GET /api/transactions`: refuses a request with no user, fails when the
   * `date` parameter names no day, and otherwise lists the selected rows of
   * `store` newest first.
   */
  function Get(userId: Option<string>, p: Params, currentYear: int, store: seq<Transaction>): (r: ApiResponse)
    ensures !SignedIn(userId) <==> r == Unauthorized
    ensures r.Status() == 401 <==> !SignedIn(userId)
    ensures r.Status() == 500 <==>
      SignedIn(userId) && ParamOrEmpty(p, "date") != "" && ParseIsoDate(ParamOrEmpty(p, "date")).None?
    ensures r == ServerError <==>
      SignedIn(userId) && ParamOrEmpty(p, "date") != "" && ParseIsoDate(ParamOrEmpty(p, "date")).None?
    ensures r.Listing? ==>
      && SortedByDateDesc(r.transactions)
      && (forall t :: multiset(r.transactions)[t] ==
            if Selected(userId.value, p, currentYear, t) then multiset(store)[t] else 0)
  {
    if !SignedIn(userId) then Unauthorized
    else
      match BuildWhere(userId.value, p, currentYear)
      case None => ServerError
      case Some(w) =>
        var found := Filter(store, (t: Transaction) => Matches(w, t));
        FilterMultiset(store, (t: Transaction) => Matches(w, t));
        assert forall t :: (multiset(found)[t] ==
          if Selected(userId.value, p, currentYear, t) then multiset(store)[t] else 0) by {
          forall t ensures multiset(found)[t] ==
            if Selected(userId.value, p, currentYear, t) then multiset(store)[t] else 0 {
            BuildWhereMeaning(userId.value, p, currentYear, t);
            if t !in store {
              assert t !in found;
            }
          }
        }
        Listing(SortByDateDesc(found))
  }

  // ---------------------------------------------------------------------------
  // Properties of the listing

  /** Every listed row is one of the caller's rows from the store and meets every restriction. */
  lemma ListingIsSelected(userId: Option<string>, p: Params, currentYear: int, store: seq<Transaction>, t: Transaction)
    requires Get(userId, p, currentYear, store).Listing?
    requires t in Get(userId, p, currentYear, store).transactions
    ensures t in store && t.userId == userId.value
    ensures Selected(userId.value, p, currentYear, t)
  {
    var r := Get(userId, p, currentYear, store).transactions;
    assert multiset(r)[t] > 0;
  }

  /** Every selected row of the store is listed. */
  lemma SelectedIsListed(userId: Option<string>, p: Params, currentYear: int, store: seq<Transaction>, t: Transaction)
    requires Get(userId, p, currentYear, store).Listing?
    requires t in store && Selected(userId.value, p, currentYear, t)
    ensures t in Get(userId, p, currentYear, store).transactions
  {
    var r := Get(userId, p, currentYear, store).transactions;
    assert multiset(r)[t] == multiset(store)[t] > 0;
  }

  /** Without a `date` parameter, every listed row's day lies in the selected year. */
  lemma ListingWithinYear(userId: Option<string>, p: Params, currentYear: int, store: seq<Transaction>, t: Transaction)
    requires Get(userId, p, currentYear, store).Listing?
    requires t in Get(userId, p, currentYear, store).transactions
    requires ParamOrEmpty(p, "date") == ""
    ensures t.date.year == SelectedYear(Param(p, "year"), currentYear)
  {
    ListingIsSelected(userId, p, currentYear, store, t);
    WithinYearIffSameYear(t.date, SelectedYear(Param(p, "year"), currentYear));
  }

  /**
   * A `date` parameter replaces the year window: a row of the caller on that
   * day is listed even when the day is outside the selected year.
   */
  lemma DateOverridesYear(userId: string, p: Params, currentYear: int, store: seq<Transaction>, t: Transaction)
    requires userId != "" && "date" in p && ParseIsoDate(p["date"]) == Some(t.date)
    requires t in store && t.userId == userId
    requires t.date.year != SelectedYear(Param(p, "year"), currentYear)
    ensures Get(Some(userId), p, currentYear, store).Listing?
    ensures var query, category := ParamOrEmpty(p, "query"), ParamOrEmpty(p, "category");
      t in Get(Some(userId), p, currentYear, store).transactions <==>
        && (query == "" || ContainsInsensitive(t.title, query))
        && (category == "" || category == AllCategories || t.category == category)
  {
    if Selected(userId, p, currentYear, t) {
      SelectedIsListed(Some(userId), p, currentYear, store, t);
    }
    if t in Get(Some(userId), p, currentYear, store).transactions {
      ListingIsSelected(Some(userId), p, currentYear, store, t);
    }
  }

  /** With a `date` parameter, only rows of that day are listed. */
  lemma ListingOnDateDay(userId: Option<string>, p: Params, currentYear: int, store: seq<Transaction>, t: Transaction)
    requires Get(userId, p, currentYear, store).Listing?
    requires t in Get(userId, p, currentYear, store).transactions
    requires ParamOrEmpty(p, "date") != ""
    ensures ParseIsoDate(p["date"]) == Some(t.date)
  {
    ListingIsSelected(userId, p, currentYear, store, t);
  }

  /** The "All Categories" sentinel and the empty string restrict nothing: the listing is as without `category`. */
  lemma CategorySentinel(userId: Option<string>, p: Params, currentYear: int, store: seq<Transaction>)
    ensures Get(userId, p["category" := AllCategories], currentYear, store) == Get(userId, p - {"category"}, currentYear, store)
    ensures Get(userId, p["category" := ""], currentYear, store) == Get(userId, p - {"category"}, currentYear, store)
  {
    if SignedIn(userId) {
      var u := userId.value;
      assert Param(p["category" := AllCategories], "year") == Param(p - {"category"}, "year");
      assert ParamOrEmpty(p["category" := AllCategories], "query") == ParamOrEmpty(p - {"category"}, "query");
      assert ParamOrEmpty(p["category" := AllCategories], "date") == ParamOrEmpty(p - {"category"}, "date");
      assert BuildWhere(u, p["category" := AllCategories], currentYear) == BuildWhere(u, p - {"category"}, currentYear);
      assert Param(p["category" := ""], "year") == Param(p - {"category"}, "year");
      assert ParamOrEmpty(p["category" := ""], "query") == ParamOrEmpty(p - {"category"}, "query");
      assert ParamOrEmpty(p["category" := ""], "date") == ParamOrEmpty(p - {"category"}, "date");
      assert BuildWhere(u, p["category" := ""], currentYear) == BuildWhere(u, p - {"category"}, currentYear);
    }
  }

  /** An empty `query` restricts nothing: the listing is as without `query`. */
  lemma EmptyQueryUnrestricted(userId: Option<string>, p: Params, currentYear: int, store: seq<Transaction>)
    ensures Get(userId, p["query" := ""], currentYear, store) == Get(userId, p - {"query"}, currentYear, store)
  {
    if SignedIn(userId) {
      var u := userId.value;
      assert Param(p["query" := ""], "year") == Param(p - {"query"}, "year");
      assert ParamOrEmpty(p["query" := ""], "category") == ParamOrEmpty(p - {"query"}, "category");
      assert ParamOrEmpty(p["query" := ""], "date") == ParamOrEmpty(p - {"query"}, "date");
      assert BuildWhere(u, p["query" := ""], currentYear) == BuildWhere(u, p - {"query"}, currentYear);
    }
  }
}
