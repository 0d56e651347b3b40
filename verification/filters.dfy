/**
 * The filter bar of components/transactions/transaction-filters.tsx: each
 * control rewrites one key of the URL search parameters that the read
 * endpoint then interprets.
 */
module Filters {
  import opened Wrappers
  import opened Calendar
  import opened Domain
  import opened Query

  /**
   * `updateFilter(key, value)`: a value that is present, non-empty and not
   * the "All Categories" sentinel is set; any other value deletes the key,
   * whichever key it is.
   */
  function UpdateFilter(p: Params, key: string, value: Option<string>): (r: Params)
    ensures value.Some? && value.value != "" && value.value != AllCategories ==> key in r && r[key] == value.value
    ensures value.None? || value == Some("") || value == Some(AllCategories) ==> key !in r
    ensures forall k :: k != key ==> (k in r <==> k in p)
    ensures forall k :: k != key && k in r ==> r[k] == p[k]
  {
    if value.Some? && value.value != "" && value.value != AllCategories then p[key := value.value]
    else p - {key}
  }

  /** Applying the same update twice is applying it once. */
  lemma UpdateFilterIdempotent(p: Params, key: string, value: Option<string>)
    ensures UpdateFilter(UpdateFilter(p, key, value), key, value) == UpdateFilter(p, key, value)
  {
  }

  /** The search box, once the typing pause has passed. */
  function SearchChange(p: Params, text: string): Params {
    UpdateFilter(p, "query", Some(text))
  }

  /** The category select. */
  function CategoryChange(p: Params, value: string): Params {
    UpdateFilter(p, "category", Some(value))
  }

  /** `handleDateSelect`: a picked day is written `yyyy-MM-dd`; no day removes the parameter. */
  function HandleDateSelect(p: Params, day: Option<Day>): (r: Params)
    requires day.Some? ==> 1 <= day.value.year <= 9999
    ensures day.None? ==> r == p - {"date"}
    ensures day.Some? ==> "date" in r && ParseIsoDate(r["date"]) == day
    ensures forall k :: k != "date" ==> (k in r <==> k in p) && (k in r ==> r[k] == p[k])
  {
    match day
    case None => UpdateFilter(p, "date", None)
    case Some(d) =>
      ParseFormatIsoDate(d);
      UpdateFilter(p, "date", Some(FormatIsoDate(d)))
  }

  /** `clearDate`. */
  function ClearDate(p: Params): (r: Params)
    ensures "date" !in r
    ensures forall k :: k != "date" ==> (k in r <==> k in p) && (k in r ==> r[k] == p[k])
  {
    UpdateFilter(p, "date", None)
  }

  /** The category the select shows: the parameter, or "All Categories" when it is absent or empty. */
  function SelectedCategory(p: Params): (c: string)
    ensures c != ""
    ensures ParamOrEmpty(p, "category") != "" ==> c == p["category"]
    ensures ParamOrEmpty(p, "category") == "" ==> c == AllCategories
  {
    var v := ParamOrEmpty(p, "category");
    if v != "" then v else AllCategories
  }

  /** The select's choices. */
  const CategoryChoices: seq<string> := [AllCategories] + Categories

  /** Choosing any entry of the select makes the select show that entry. */
  lemma CategoryChoiceShown(p: Params, value: string)
    requires value in CategoryChoices
    ensures SelectedCategory(CategoryChange(p, value)) == value
  {
  }

  /** Choosing "All Categories" lists exactly what listing without a category would. */
  lemma AllCategoriesChoiceUnrestricted(userId: Option<string>, p: Params, currentYear: int, store: seq<Transaction>)
    ensures Get(userId, CategoryChange(p, AllCategories), currentYear, store) == Get(userId, p - {"category"}, currentYear, store)
  {
  }

  /** Because the sentinel test covers every key, searching for the text "All Categories" clears the search. */
  lemma SentinelSearchClears(p: Params)
    ensures "query" !in SearchChange(p, AllCategories)
    ensures ParamOrEmpty(SearchChange(p, AllCategories), "query") == ""
  {
  }

  /**
   * After a day is picked, a signed-in listing holds exactly that day's
   * records among those the other filters keep, whatever the year parameter
   * says.
   */
  lemma PickedDayListed(userId: string, p: Params, d: Day, currentYear: int, store: seq<Transaction>, t: Transaction)
    requires userId != "" && 1 <= d.year <= 9999
    requires t in store && t.userId == userId
    ensures var listing := Get(Some(userId), HandleDateSelect(p, Some(d)), currentYear, store);
      && listing.Listing?
      && (t in listing.transactions <==> t.date == d && Selected(userId, HandleDateSelect(p, Some(d)), currentYear, t))
  {
    var q := HandleDateSelect(p, Some(d));
    var listing := Get(Some(userId), q, currentYear, store);
    assert ParamOrEmpty(q, "date") != "";
    if t in listing.transactions {
      ListingOnDateDay(Some(userId), q, currentYear, store, t);
      ListingIsSelected(Some(userId), q, currentYear, store, t);
    }
    if t.date == d && Selected(userId, q, currentYear, t) {
      SelectedIsListed(Some(userId), q, currentYear, store, t);
    }
  }
}
