/**
 * The data model shared by the server actions, the read endpoint and the
 * pages: the stored transaction record, its client-side JSON view, the
 * authentication input and the server actions' response shape.
 */
module Domain {
  import opened Wrappers
  import opened Calendar

  const Income: string := "income"
  const Expense: string := "expense"

  /** The two transaction types the schemas admit. */
  const TransactionTypes: seq<string> := [Income, Expense]

  /** The fixed category enumeration of the validated schema. */
  const Categories: seq<string> := ["Housing", "Transport", "Food", "Salary", "Freelance", "Other"]

  /** The category filter value that means "no restriction". */
  const AllCategories: string := "All Categories"

  /** The category a missing one is reported under. */
  const OtherCategory: string := "Other"

  /**
   * A row of the transaction table. `amount` is in cents; `txType` and
   * `category` are free strings because two of the insert paths store
   * whatever they are given.
   */
  datatype Transaction = Transaction(
    id: string,
    userId: string,
    title: string,
    amount: int,
    txType: string,
    category: string,
    date: Day)

  /**
   * A record as the client pages see it after JSON decoding: every field the
   * pages test for `null` is optional. `createdAt` is an uninterpreted timestamp.
   */
  datatype Row = Row(
    id: string,
    title: Option<string>,
    amount: Option<int>,
    txType: string,
    category: Option<string>,
    date: Option<Day>,
    createdAt: Option<int>)

  /** The JSON view of a stored record, as the read endpoint sends it. */
  function RowOf(t: Transaction, createdAt: Option<int>): (r: Row)
    ensures r.id == t.id && r.txType == t.txType
    ensures r.title == Some(t.title) && r.amount == Some(t.amount)
    ensures r.category == Some(t.category) && r.date == Some(t.date)
  {
    Row(t.id, Some(t.title), Some(t.amount), t.txType, Some(t.category), Some(t.date), createdAt)
  }

  /** The JSON array of a listing, as a page decodes it; the timestamps are the datastore's. */
  function RowsOf(ts: seq<Transaction>, createdAt: Transaction -> Option<int>): (rs: seq<Row>)
    ensures |rs| == |ts|
    ensures forall i :: 0 <= i < |ts| ==> rs[i] == RowOf(ts[i], createdAt(ts[i]))
  {
    seq(|ts|, i requires 0 <= i < |ts| => RowOf(ts[i], createdAt(ts[i])))
  }

  /** `userId` is truthy: present and not the empty string. */
  predicate SignedIn(userId: Option<string>) {
    userId.Some? && userId.value != ""
  }

  /** The record's key is `id` and it belongs to `userId`. */
  predicate OwnedMatch(t: Transaction, id: string, userId: string) {
    t.id == id && t.userId == userId
  }

  /** The datastore's primary-key invariant: no two rows share an id. */
  ghost predicate UniqueIds(store: seq<Transaction>) {
    forall i, j :: 0 <= i < j < |store| ==> store[i].id != store[j].id
  }

  /** `id` is not yet used by any row. */
  predicate FreshId(store: seq<Transaction>, id: string) {
    forall i :: 0 <= i < |store| ==> store[i].id != id
  }

  /** Field name to the validation messages raised for it (zod's `flatten().fieldErrors`). */
  type FieldErrors = map<string, seq<string>>

  /** The `message` of every answer that carries field errors. */
  const ValidationMessage: string := "Validation error"

  /**
   * The `{ success, message?, errors? }` object the server actions return.
   * `StoreError` is a failure whose message is the datastore's own error text.
   */
  datatype Response =
    | Ok(note: Option<string>)
    | Failed(reason: string)
    | Invalid(errors: FieldErrors)
    | StoreError
  {
    predicate Success() {
      Ok?
    }

    /** The `message` field; the datastore's text is not modelled (`None`). */
    function Message(): Option<string> {
      match this
      case Ok(m) => m
      case Failed(m) => Some(m)
      case Invalid(_) => Some(ValidationMessage)
      case StoreError => None
    }
  }

  /** A server action's response together with the store it leaves behind. */
  datatype Outcome = Outcome(response: Response, store: seq<Transaction>)
}
