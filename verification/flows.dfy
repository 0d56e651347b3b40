/**
 * How the server actions and the read endpoint fit together: what a user
 * sees in the default listing after adding or deleting a record.
 */
module Flows {
  import opened Wrappers
  import opened Calendar
  import opened Domain
  import opened Validation
  import opened Query
  import opened Dashboard
  import Actions

  /** A record added with a date in the current year appears in the default listing. */
  lemma AddedRecordListed(userId: string, data: Input, newId: string, store: seq<Transaction>, currentYear: int)
    requires userId != "" && Accepts(data)
    requires ParseIsoDate(data.date).value.year == currentYear
    ensures var o := Actions.AddTransaction(Some(userId), data, newId, store);
      && o.response.Success()
      && Get(Some(userId), map[], currentYear, o.store).Listing?
      && o.store[|store|] in Get(Some(userId), map[], currentYear, o.store).transactions
  {
    var o := Actions.AddTransaction(Some(userId), data, newId, store);
    var t := o.store[|store|];
    WithinYearIffSameYear(t.date, currentYear);
    assert Selected(userId, map[], currentYear, t);
    SelectedIsListed(Some(userId), map[], currentYear, o.store, t);
  }

  /** After a successful delete the record is in no listing of its owner. */
  lemma DeletedRecordNotListed(userId: string, t: Transaction, store: seq<Transaction>, p: Params, currentYear: int)
    requires t in store && t.userId == userId
    requires Actions.DeleteTransaction(Some(userId), t.id, store).response.Success()
    ensures var after := Actions.DeleteTransaction(Some(userId), t.id, store).store;
      Get(Some(userId), p, currentYear, after).Listing? ==> t !in Get(Some(userId), p, currentYear, after).transactions
  {
    var after := Actions.DeleteTransaction(Some(userId), t.id, store).store;
    if Get(Some(userId), p, currentYear, after).Listing? && t in Get(Some(userId), p, currentYear, after).transactions {
      ListingIsSelected(Some(userId), p, currentYear, after, t);
      assert false;
    }
  }

  /** Once a user deletes all their records, every listing of theirs is empty. */
  lemma NothingListedAfterDeleteAll(userId: string, store: seq<Transaction>, p: Params, currentYear: int)
    requires userId != ""
    ensures var after := Actions.DeleteUserTransactions(Some(userId), store).store;
      Get(Some(userId), p, currentYear, after).Listing? ==> Get(Some(userId), p, currentYear, after).transactions == []
  {
    var after := Actions.DeleteUserTransactions(Some(userId), store).store;
    var g := Get(Some(userId), p, currentYear, after);
    if g.Listing? && g.transactions != [] {
      ListingIsSelected(Some(userId), p, currentYear, after, g.transactions[0]);
      assert false;
    }
  }

  /**
   * The dashboard fetches the listing without parameters, so it reports
   * transactions exactly when the caller has a record dated in the current
   * year; older records never reach it.
   */
  lemma DashboardSeesCurrentYear(userId: string, currentYear: int, store: seq<Transaction>,
                                 createdAt: Transaction -> Option<int>)
    requires userId != ""
    ensures var listing := Get(Some(userId), map[], currentYear, store);
      && listing.Listing?
      && (Summarize(RowsOf(listing.transactions, createdAt)).hasTransactions <==>
          exists t :: t in store && t.userId == userId && t.date.year == currentYear)
  {
    var listing := Get(Some(userId), map[], currentYear, store);
    assert SelectedYear(Param(map[], "year"), currentYear) == currentYear;
    if exists t :: t in store && t.userId == userId && t.date.year == currentYear {
      var t :| t in store && t.userId == userId && t.date.year == currentYear;
      WithinYearIffSameYear(t.date, currentYear);
      assert Selected(userId, map[], currentYear, t);
      SelectedIsListed(Some(userId), map[], currentYear, store, t);
    }
    if listing.transactions != [] {
      var t := listing.transactions[0];
      ListingIsSelected(Some(userId), map[], currentYear, store, t);
      ListingWithinYear(Some(userId), map[], currentYear, store, t);
    }
  }
}
