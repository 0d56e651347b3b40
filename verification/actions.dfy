/**
 * The server actions of lib/actions.ts as transitions of the transaction
 * store: create, full-field update, single delete and delete-all, each
 * scoped to the signed-in user and each answering with a response object.
 */
module Actions {
  import opened Wrappers
  import opened Calendar
  import opened Seqs
  import opened Domain
  import opened Validation

  const NotAuthenticated: string := "User not authenticated"
  const IdRequired: string := "Transaction ID is required"
  const AddedMessage: string := "Transaction added successfully"
  const UpdatedMessage: string := "Transaction updated successfully"
  const DeletedMessage: string := "Transaction deleted successfully"
  const AllDeletedMessage: string := "All transactions deleted successfully"

  /** The update form: the record's id plus the five editable fields. */
  datatype UpdateForm = UpdateForm(id: string, fields: Input)

  /** Some row has key `id` and belongs to `userId`. */
  predicate HasOwned(store: seq<Transaction>, id: string, userId: string) {
    exists j :: 0 <= j < |store| && OwnedMatch(store[j], id, userId)
  }

  /** The row inserted for validated fields. */
  function NewRecord(id: string, userId: string, v: Valid): Transaction {
    Transaction(id, userId, v.title, v.amount, v.txType, v.category, v.date)
  }

  /** The row after a full-field update: key and owner kept, the five editable fields replaced. */
  function Replaced(t: Transaction, v: Valid): (r: Transaction)
    ensures r.id == t.id && r.userId == t.userId
    ensures r.title == v.title && r.amount == v.amount && r.txType == v.txType
    ensures r.category == v.category && r.date == v.date
  {
    t.(title := v.title, amount := v.amount, txType := v.txType, category := v.category, date := v.date)
  }

  /**
   * `addTransaction`: the signed-in user's validated record is appended under
   * the datastore-assigned `newId`; nothing else changes.
   */
  function AddTransaction(userId: Option<string>, data: Input, newId: string, store: seq<Transaction>): (o: Outcome)
    ensures !SignedIn(userId) ==> o == Outcome(Failed(NotAuthenticated), store)
    ensures SignedIn(userId) && !Accepts(data) ==>
      o.store == store && o.response.Invalid? && o.response.errors == Validate(data).error
      && o.response.Message() == Some(ValidationMessage)
    ensures o.response.Success() <==> SignedIn(userId) && Accepts(data)
    ensures o.response.Success() ==>
      && o.response == Ok(Some(AddedMessage))
      && |o.store| == |store| + 1
      && o.store[..|store|] == store
      && o.store[|store|] == Transaction(newId, userId.value, data.title, data.amount.value,
                                         data.txType, data.category, ParseIsoDate(data.date).value)
    ensures !o.response.Success() ==> o.store == store
  {
    if !SignedIn(userId) then Outcome(Failed(NotAuthenticated), store)
    else
      match Validate(data)
      case Failure(errors) => Outcome(Invalid(errors), store)
      case Success(v) => Outcome(Ok(Some(AddedMessage)), store + [NewRecord(newId, userId.value, v)])
  }

  /** Every row keyed `id` and owned by `userId` gets the new fields. */
  function ApplyUpdate(store: seq<Transaction>, id: string, userId: string, v: Valid): (r: seq<Transaction>)
    ensures |r| == |store|
    ensures forall j :: 0 <= j < |store| ==>
      r[j] == if OwnedMatch(store[j], id, userId) then Replaced(store[j], v) else store[j]
  {
    seq(|store|, j requires 0 <= j < |store| =>
      if OwnedMatch(store[j], id, userId) then Replaced(store[j], v) else store[j])
  }

  /**
   * `updateTransaction`: authentication first, then the id, then the schema,
   * then an update scoped by both id and owner that fails when no such row
   * exists.
   */
  function UpdateTransaction(userId: Option<string>, form: UpdateForm, store: seq<Transaction>): (o: Outcome)
    ensures !SignedIn(userId) ==> o == Outcome(Failed(NotAuthenticated), store)
    ensures SignedIn(userId) && form.id == "" ==> o == Outcome(Failed(IdRequired), store)
    ensures SignedIn(userId) && form.id != "" && !Accepts(form.fields) ==>
      o.store == store && o.response.Invalid? && o.response.errors == Validate(form.fields).error
    ensures SignedIn(userId) && form.id != "" && Accepts(form.fields) && !HasOwned(store, form.id, userId.value) ==>
      o == Outcome(StoreError, store)
    ensures o.response.Success() <==>
      SignedIn(userId) && form.id != "" && Accepts(form.fields) && HasOwned(store, form.id, userId.value)
    ensures o.response.Success() ==>
      && o.response == Ok(Some(UpdatedMessage))
      && |o.store| == |store|
      && forall j :: 0 <= j < |store| ==>
           if OwnedMatch(store[j], form.id, userId.value) then
             && o.store[j].id == store[j].id && o.store[j].userId == store[j].userId
             && o.store[j].title == form.fields.title
             && Some(o.store[j].amount) == form.fields.amount
             && o.store[j].txType == form.fields.txType
             && o.store[j].category == form.fields.category
             && Some(o.store[j].date) == ParseIsoDate(form.fields.date)
           else o.store[j] == store[j]
    ensures !o.response.Success() ==> o.store == store
  {
    if !SignedIn(userId) then Outcome(Failed(NotAuthenticated), store)
    else if form.id == "" then Outcome(Failed(IdRequired), store)
    else
      match Validate(form.fields)
      case Failure(errors) => Outcome(Invalid(errors), store)
      case Success(v) =>
        if !HasOwned(store, form.id, userId.value) then Outcome(StoreError, store)
        else Outcome(Ok(Some(UpdatedMessage)), ApplyUpdate(store, form.id, userId.value, v))
  }

  /**
   * `deleteTransaction`: removes the row keyed `id` owned by the caller; a
   * missing id, or no such row, is a failure.
   */
  function DeleteTransaction(userId: Option<string>, id: string, store: seq<Transaction>): (o: Outcome)
    ensures !SignedIn(userId) ==> o == Outcome(Failed(NotAuthenticated), store)
    ensures SignedIn(userId) && id == "" ==> o == Outcome(Failed(IdRequired), store)
    ensures SignedIn(userId) && id != "" && !HasOwned(store, id, userId.value) ==> o == Outcome(StoreError, store)
    ensures o.response.Success() <==> SignedIn(userId) && id != "" && HasOwned(store, id, userId.value)
    ensures o.response.Success() ==>
      && o.response == Ok(Some(DeletedMessage))
      && |o.store| < |store|
      && (forall j :: 0 <= j < |o.store| ==> o.store[j] in store && !OwnedMatch(o.store[j], id, userId.value))
      && (forall j :: 0 <= j < |store| && !OwnedMatch(store[j], id, userId.value) ==> store[j] in o.store)
    ensures !o.response.Success() ==> o.store == store
  {
    if !SignedIn(userId) then Outcome(Failed(NotAuthenticated), store)
    else if id == "" then Outcome(Failed(IdRequired), store)
    else if !HasOwned(store, id, userId.value) then Outcome(StoreError, store)
    else
      var keep := (t: Transaction) => !OwnedMatch(t, id, userId.value);
      var kept := Filter(store, keep);
      FilterMembers(store, keep);
      assert |kept| < |store| by {
        var j :| 0 <= j < |store| && OwnedMatch(store[j], id, userId.value);
        FilterShrinks(store, (t: Transaction) => !OwnedMatch(t, id, userId.value), j);
      }
      Outcome(Ok(Some(DeletedMessage)), kept)
  }

  /** `deleteUserTransactions`: every row of the caller goes, every other row stays. */
  function DeleteUserTransactions(userId: Option<string>, store: seq<Transaction>): (o: Outcome)
    ensures !SignedIn(userId) ==> o == Outcome(Failed(NotAuthenticated), store)
    ensures o.response.Success() <==> SignedIn(userId)
    ensures o.response.Success() ==>
      && o.response == Ok(Some(AllDeletedMessage))
      && (forall j :: 0 <= j < |o.store| ==> o.store[j] in store && o.store[j].userId != userId.value)
      && (forall j :: 0 <= j < |store| && store[j].userId != userId.value ==> store[j] in o.store)
  {
    if !SignedIn(userId) then Outcome(Failed(NotAuthenticated), store)
    else
      var keep := (t: Transaction) => t.userId != userId.value;
      FilterMembers(store, keep);
      Outcome(Ok(Some(AllDeletedMessage)), Filter(store, keep))
  }

  // ---------------------------------------------------------------------------
  // Store invariants and ownership isolation

  /** Adding under a fresh id keeps ids unique. */
  lemma AddKeepsIdsUnique(userId: Option<string>, data: Input, newId: string, store: seq<Transaction>)
    requires UniqueIds(store) && FreshId(store, newId)
    ensures UniqueIds(AddTransaction(userId, data, newId, store).store)
  {
  }

  /** Updates never change a key, so ids stay unique. */
  lemma UpdateKeepsIdsUnique(userId: Option<string>, form: UpdateForm, store: seq<Transaction>)
    requires UniqueIds(store)
    ensures UniqueIds(UpdateTransaction(userId, form, store).store)
  {
    var o := UpdateTransaction(userId, form, store);
    if o.response.Success() {
      assert forall j :: 0 <= j < |store| ==> o.store[j].id == store[j].id;
    }
  }

  /** With unique ids a successful delete removes exactly one row, keeping the rest in order. */
  lemma DeleteRemovesOne(userId: Option<string>, id: string, store: seq<Transaction>)
    requires UniqueIds(store)
    requires DeleteTransaction(userId, id, store).response.Success()
    ensures exists j :: 0 <= j < |store| && DeleteTransaction(userId, id, store).store == store[..j] + store[j + 1..]
  {
    var uid := userId.value;
    var p := (t: Transaction) => !OwnedMatch(t, id, uid);
    var j :| 0 <= j < |store| && OwnedMatch(store[j], id, uid);
    FilterRemovesOnly(store, p, j);
  }

  /** Another user can neither update nor delete a row: both report a store failure and change nothing. */
  lemma OwnershipIsolation(owner: string, intruder: string, t: Transaction, fields: Input, store: seq<Transaction>)
    requires UniqueIds(store) && t in store && t.userId == owner
    requires intruder != owner && intruder != "" && t.id != ""
    ensures var u := UpdateTransaction(Some(intruder), UpdateForm(t.id, fields), store);
      !u.response.Success() && u.store == store && (Accepts(fields) ==> u.response == StoreError)
    ensures var d := DeleteTransaction(Some(intruder), t.id, store);
      d.response == StoreError && d.store == store
  {
    assert !HasOwned(store, t.id, intruder);
  }
}
