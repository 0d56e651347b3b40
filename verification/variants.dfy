/**
 * The two other insert paths: `addTransaction` of
 * app/actions/add-transaction.ts, which checks a looser schema and throws
 * instead of answering, and `createTransaction` of app/actions/transaction.ts,
 * which stores the form without any check. The host's `new Date(text)` is
 * the parameter `parseDate`; `None` is an Invalid Date, which the datastore
 * refuses.
 */
module Variants {
  import opened Wrappers
  import opened Calendar
  import opened Domain
  import opened Validation
  import Actions

  // ---------------------------------------------------------------------------
  // addTransaction of app/actions/add-transaction.ts

  /** zod's default messages for the looser schema's checks. */
  const TooShortMessage: string := "String must contain at least 1 character(s)"
  const NotPositiveMessage: string := "Number must be greater than 0"

  /** The looser schema: category and date may be any string. */
  predicate WeakAccepts(i: Input) {
    && |i.title| >= 1
    && i.amount.Some? && i.amount.value > 0
    && i.txType in TransactionTypes
  }

  /** The field errors of the looser schema, one message per failing field. */
  function WeakIssues(i: Input): (errors: FieldErrors)
    ensures "title" in errors <==> |i.title| < 1
    ensures "amount" in errors <==> !(i.amount.Some? && i.amount.value > 0)
    ensures "type" in errors <==> i.txType !in TransactionTypes
    ensures errors.Keys <= {"title", "amount", "type"}
    ensures "title" in errors ==> errors["title"] == [TooShortMessage]
    ensures "amount" in errors ==> errors["amount"] == [if i.amount.None? then NanMessage else NotPositiveMessage]
    ensures "type" in errors ==> errors["type"] == [EnumMessage(TransactionTypes, i.txType)]
  {
    var title := if |i.title| >= 1 then None else Some(TooShortMessage);
    var amount := match i.amount
      case None => Some(NanMessage)
      case Some(a) => if a > 0 then None else Some(NotPositiveMessage);
    var e0: FieldErrors := map[];
    var e1 := Report(e0, "title", title);
    var e2 := Report(e1, "amount", amount);
    Report(e2, "type", EnumIssue(TransactionTypes, i.txType))
  }

  /** What the action throws. */
  datatype Thrown =
    | Unauthorized
    | SchemaError(errors: FieldErrors)
    | StoreRejected

  /** `{ success: true }` with the store it leaves, or the error it throws with the store untouched. */
  datatype Completion = Returned(store: seq<Transaction>) | Threw(error: Thrown, store: seq<Transaction>)

  const UnauthorizedMessage: string := "Unauthorized"

  /**
   * The throwing `addTransaction`: no user throws, a schema failure throws,
   * an unparsable date is refused by the datastore, otherwise one row is
   * appended.
   */
  function AddTransaction(userId: Option<string>, data: Input, newId: string,
                          parseDate: string -> Option<Day>, store: seq<Transaction>): (c: Completion)
    ensures !SignedIn(userId) ==> c == Threw(Unauthorized, store)
    ensures SignedIn(userId) && !WeakAccepts(data) ==> c == Threw(SchemaError(WeakIssues(data)), store)
    ensures SignedIn(userId) && WeakAccepts(data) && parseDate(data.date).None? ==> c == Threw(StoreRejected, store)
    ensures c.Returned? <==> SignedIn(userId) && WeakAccepts(data) && parseDate(data.date).Some?
    ensures c.Returned? ==>
      c.store == store + [Transaction(newId, userId.value, data.title, data.amount.value,
                                      data.txType, data.category, parseDate(data.date).value)]
    ensures c.Threw? ==> c.store == store
  {
    if !SignedIn(userId) then Threw(Unauthorized, store)
    else if !WeakAccepts(data) then Threw(SchemaError(WeakIssues(data)), store)
    else match parseDate(data.date)
      case None => Threw(StoreRejected, store)
      case Some(d) =>
        Returned(store + [Transaction(newId, userId.value, data.title, data.amount.value, data.txType, data.category, d)])
  }

  /** Every input the shared schema accepts, the looser one accepts too. */
  lemma SchemaIsWeaker(i: Input)
    requires Accepts(i)
    ensures WeakAccepts(i)
  {
  }

  /** The looser schema lets through a category outside the enumeration and a date that is no date. */
  lemma WeakSchemaAdmitsMore()
    ensures var i := Input("Rent", Some(100), Expense, "Misc", "soon");
      WeakAccepts(i) && !Accepts(i)
  {
    var i := Input("Rent", Some(100), Expense, "Misc", "soon");
    assert "Misc" !in Categories;
  }

  /**
   * On an input the shared schema accepts, and a host date parser that reads
   * its date as the calendar day it names, both add actions store the same row.
   */
  lemma AddPathsAgree(userId: Option<string>, data: Input, newId: string,
                      parseDate: string -> Option<Day>, store: seq<Transaction>)
    requires SignedIn(userId) && Accepts(data)
    requires parseDate(data.date) == ParseIsoDate(data.date)
    ensures AddTransaction(userId, data, newId, parseDate, store).store ==
            Actions.AddTransaction(userId, data, newId, store).store
  {
  }

  // ---------------------------------------------------------------------------
  // createTransaction of app/actions/transaction.ts

  /** The form fields `createTransaction` reads; the title comes from `description`. */
  datatype CreateForm = CreateForm(description: string, amount: int, txType: string, category: string, date: string)

  /**
   * `createTransaction`: no user is the failure "Unauthorized"; the fields go
   * to the datastore as given, which refuses only an unparsable date; success
   * carries no message.
   */
  function CreateTransaction(userId: Option<string>, form: CreateForm, newId: string,
                             parseDate: string -> Option<Day>, store: seq<Transaction>): (o: Outcome)
    ensures !SignedIn(userId) ==> o == Outcome(Failed(UnauthorizedMessage), store)
    ensures SignedIn(userId) && parseDate(form.date).None? ==> o == Outcome(StoreError, store)
    ensures o.response.Success() <==> SignedIn(userId) && parseDate(form.date).Some?
    ensures o.response.Success() ==>
      && o.response == Ok(None)
      && o.store == store + [Transaction(newId, userId.value, form.description, form.amount,
                                         form.txType, form.category, parseDate(form.date).value)]
    ensures !o.response.Success() ==> o.store == store
  {
    if !SignedIn(userId) then Outcome(Failed(UnauthorizedMessage), store)
    else match parseDate(form.date)
      case None => Outcome(StoreError, store)
      case Some(d) =>
        Outcome(Ok(None), store + [Transaction(newId, userId.value, form.description, form.amount, form.txType, form.category, d)])
  }

  /** The form read as the shared schema's input: `description` as the title. */
  function FormInput(form: CreateForm): Input {
    Input(form.description, Some(form.amount), form.txType, form.category, form.date)
  }

  /**
   * On any form the shared schema accepts, and a host date parser that reads
   * its date as the day it names, `createTransaction` succeeds exactly when
   * `addTransaction` does and stores the same row; only the message differs.
   */
  lemma CreateAgreesWithAdd(userId: Option<string>, form: CreateForm, newId: string,
                            parseDate: string -> Option<Day>, store: seq<Transaction>)
    requires Accepts(FormInput(form))
    requires parseDate(form.date) == ParseIsoDate(form.date)
    ensures var c := CreateTransaction(userId, form, newId, parseDate, store);
      var a := Actions.AddTransaction(userId, FormInput(form), newId, store);
      && (c.response.Success() <==> a.response.Success())
      && c.store == a.store
  {
  }

  /** Nothing is checked: a row no schema would admit is stored as given. */
  lemma CreateSkipsValidation(userId: string, newId: string, parseDate: string -> Option<Day>, store: seq<Transaction>)
    requires userId != ""
    requires parseDate("2024-01-01").Some?
    ensures var o := CreateTransaction(Some(userId), CreateForm("", -5, "transfer", "Misc", "2024-01-01"), newId, parseDate, store);
      && o.response.Success()
      && o.store[|store|].title == "" && o.store[|store|].amount == -5
      && o.store[|store|].txType !in TransactionTypes
      && !Accepts(Input("", Some(-5), "transfer", "Misc", "2024-01-01"))
  {
  }
}
