/**
 * The transaction schema shared by the create and update actions of
 * lib/actions.ts, written out by hand: one check per field, every failing
 * field reported with its message.
 */
module Validation {
  import opened Wrappers
  import opened Calendar
  import opened Domain

  /**
   * The five editable fields as submitted. `amount` is the number the schema
   * coerces the submitted value to, in cents; `None` is NaN.
   */
  datatype Input = Input(title: string, amount: Option<int>, txType: string, category: string, date: string)

  /** The fields after a successful parse; the date is the calendar day it names. */
  datatype Valid = Valid(title: string, amount: int, txType: string, category: string, date: Day)

  const TitleMessage: string := "Title is required"
  const AmountMessage: string := "Amount must be positive"
  const NanMessage: string := "Expected number, received nan"
  const DateMessage: string := "Invalid date"

  /** zod's enum message: the admitted values quoted and joined by ` | `, then the value received. */
  function EnumMessage(options: seq<string>, received: string): string {
    "Invalid enum value. Expected " + QuotedAlternatives(options) + ", received '" + received + "'"
  }

  function QuotedAlternatives(options: seq<string>): string {
    if |options| == 0 then ""
    else if |options| == 1 then "'" + options[0] + "'"
    else "'" + options[0] + "' | " + QuotedAlternatives(options[1..])
  }

  /** The schema as a predicate: every field meets its constraint. */
  predicate Accepts(i: Input) {
    && |i.title| >= 1
    && i.amount.Some? && i.amount.value > 0
    && i.txType in TransactionTypes
    && i.category in Categories
    && ParseIsoDate(i.date).Some?
  }

  function TitleIssue(title: string): (r: Option<string>)
    ensures r.Some? <==> |title| < 1
    ensures r.Some? ==> r.value == TitleMessage
  {
    if |title| >= 1 then None else Some(TitleMessage)
  }

  function AmountIssue(amount: Option<int>): (r: Option<string>)
    ensures r.Some? <==> !(amount.Some? && amount.value > 0)
    ensures r.Some? ==> r.value == if amount.None? then NanMessage else AmountMessage
  {
    match amount
    case None => Some(NanMessage)
    case Some(a) => if a > 0 then None else Some(AmountMessage)
  }

  function EnumIssue(options: seq<string>, value: string): (r: Option<string>)
    ensures r.Some? <==> value !in options
    ensures r.Some? ==> r.value == EnumMessage(options, value)
  {
    if value in options then None else Some(EnumMessage(options, value))
  }

  function DateIssue(date: string): (r: Option<string>)
    ensures r.Some? <==> ParseIsoDate(date).None?
    ensures r.Some? ==> r.value == DateMessage
  {
    if ParseIsoDate(date).Some? then None else Some(DateMessage)
  }

  /** Adds `field` with its one message when the check raised one. */
  function Report(errors: FieldErrors, field: string, issue: Option<string>): (r: FieldErrors)
    ensures field in r <==> field in errors || issue.Some?
    ensures issue.Some? ==> r[field] == [issue.value]
    ensures issue.None? && field in errors ==> r[field] == errors[field]
    ensures forall f :: f != field ==> (f in r <==> f in errors)
    ensures forall f :: f != field && f in r ==> r[f] == errors[f]
  {
    match issue
    case None => errors
    case Some(m) => errors[field := [m]]
  }

  /** The field-error map of the five checks' outcomes, in schema order. */
  function Collect(title: Option<string>, amount: Option<string>, txType: Option<string>,
                   category: Option<string>, date: Option<string>): (errors: FieldErrors)
    ensures "title" in errors <==> title.Some?
    ensures "amount" in errors <==> amount.Some?
    ensures "type" in errors <==> txType.Some?
    ensures "category" in errors <==> category.Some?
    ensures "date" in errors <==> date.Some?
    ensures errors.Keys <= {"title", "amount", "type", "category", "date"}
    ensures title.Some? ==> errors["title"] == [title.value]
    ensures amount.Some? ==> errors["amount"] == [amount.value]
    ensures txType.Some? ==> errors["type"] == [txType.value]
    ensures category.Some? ==> errors["category"] == [category.value]
    ensures date.Some? ==> errors["date"] == [date.value]
  {
    var e0: FieldErrors := map[];
    var e1 := Report(e0, "title", title);
    var e2 := Report(e1, "amount", amount);
    var e3 := Report(e2, "type", txType);
    var e4 := Report(e3, "category", category);
    Report(e4, "date", date)
  }

  /** The per-field messages of every failing field. */
  function Issues(i: Input): (errors: FieldErrors)
    ensures "title" in errors <==> |i.title| < 1
    ensures "amount" in errors <==> !(i.amount.Some? && i.amount.value > 0)
    ensures "type" in errors <==> i.txType !in TransactionTypes
    ensures "category" in errors <==> i.category !in Categories
    ensures "date" in errors <==> ParseIsoDate(i.date).None?
    ensures errors.Keys <= {"title", "amount", "type", "category", "date"}
    ensures "title" in errors ==> errors["title"] == [TitleMessage]
    ensures "amount" in errors ==> errors["amount"] == [if i.amount.None? then NanMessage else AmountMessage]
    ensures "type" in errors ==> errors["type"] == [EnumMessage(TransactionTypes, i.txType)]
    ensures "category" in errors ==> errors["category"] == [EnumMessage(Categories, i.category)]
    ensures "date" in errors ==> errors["date"] == [DateMessage]
  {
    Collect(TitleIssue(i.title), AmountIssue(i.amount), EnumIssue(TransactionTypes, i.txType),
            EnumIssue(Categories, i.category), DateIssue(i.date))
  }

  /**
   * `transactionSchema.parse`: the validated fields when every check passes,
   * otherwise the field-error map naming exactly the failing fields.
   */
  function Validate(i: Input): (r: Result<Valid, FieldErrors>)
    ensures r.Success? <==> Accepts(i)
    ensures r.Success? ==>
      && r.value.title == i.title
      && Some(r.value.amount) == i.amount && r.value.amount > 0
      && r.value.txType == i.txType && r.value.txType in TransactionTypes
      && r.value.category == i.category && r.value.category in Categories
      && ParseIsoDate(i.date) == Some(r.value.date) && IsValid(r.value.date)
    ensures r.Failure? ==> r.error == Issues(i)
    ensures r.Failure? ==>
      && r.error != map[]
      && ("title" in r.error <==> |i.title| < 1)
      && ("amount" in r.error <==> !(i.amount.Some? && i.amount.value > 0))
      && ("type" in r.error <==> i.txType !in TransactionTypes)
      && ("category" in r.error <==> i.category !in Categories)
      && ("date" in r.error <==> ParseIsoDate(i.date).None?)
  {
    var errors := Issues(i);
    if errors == map[] then
      Success(Valid(i.title, i.amount.value, i.txType, i.category, ParseIsoDate(i.date).value))
    else
      assert !Accepts(i) by {
        var f :| f in errors;
      }
      Failure(errors)
  }

  /** An empty title is rejected and the error names `title` with its message. */
  lemma EmptyTitleRejected(i: Input)
    requires i.title == ""
    ensures Validate(i).Failure?
    ensures "title" in Validate(i).error && Validate(i).error["title"] == [TitleMessage]
  {
  }

  /** A negative amount is rejected and the error names `amount` with its message. */
  lemma NegativeAmountRejected(i: Input)
    requires i.amount.Some? && i.amount.value <= 0
    ensures Validate(i).Failure?
    ensures "amount" in Validate(i).error && Validate(i).error["amount"] == [AmountMessage]
  {
  }
}
