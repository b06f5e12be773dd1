/** The income record of `src/models/Income.js` and the rules its schema
    applies when a document is created or updated: which paths are
    required, the enum of `payCycle`, and the defaults of `name` and
    `isMain`. */
module IncomeModel {
  import opened Wrappers
  import opened Dates

  /** Document and user identifiers. */
  type Id = nat

  /** A stored income. A `name` written as `null` is stored as `None`. */
  datatype Income = Income(
    id: Id,
    userId: Id,
    name: Option<string>,
    amount: int,
    payCycle: string,
    nextPayDate: Instant,
    isMain: bool)

  const DefaultName: string := "Income"

  /** The `payCycle` enum of the schema. */
  predicate IsIncomePayCycle(p: string) {
    p == "weekly" || p == "biweekly" || p == "monthly" || p == "one-time"
  }

  /** What the schema guarantees of every stored income beyond its shape
      (the required paths are the fields of `Income` that are never
      missing). There is no rule about `isMain`: nothing here stops two
      incomes of one user from both being the main one. */
  predicate ValidIncome(i: Income) {
    IsIncomePayCycle(i.payCycle)
  }

  /** The income paths a request may set; `Undefined` leaves a path out. */
  datatype IncomeFields = IncomeFields(
    name: Js<string>,
    amount: Js<int>,
    payCycle: Js<string>,
    nextPayDate: Js<Instant>,
    isMain: Js<bool>)

  /** `Income.create(...)`: `amount`, `payCycle` and `nextPayDate` are
      required, `payCycle` must be in the enum, a missing `name` becomes
      `"Income"` and a missing `isMain` false. */
  function CreateDocument(id: Id, userId: Id, f: IncomeFields): (r: Option<Income>)
    ensures r.Some? <==> f.amount.Val? && f.payCycle.Val? && IsIncomePayCycle(f.payCycle.value) && f.nextPayDate.Val?
    ensures r.Some? ==> ValidIncome(r.value)
    ensures r.Some? ==> r.value.id == id && r.value.userId == userId
    ensures r.Some? ==> r.value.amount == f.amount.value && r.value.payCycle == f.payCycle.value
                        && r.value.nextPayDate == f.nextPayDate.value
    ensures r.Some? && f.name.Undefined? ==> r.value.name == Some(DefaultName)
    ensures r.Some? && f.name.Defined() ==> r.value.name == f.name.ToOption()
    ensures r.Some? ==> (r.value.isMain <==> f.isMain == Val(true))
  {
    if f.amount.Val? && f.payCycle.Val? && IsIncomePayCycle(f.payCycle.value) && f.nextPayDate.Val? then
      Some(Income(
        id, userId,
        if f.name.Undefined? then Some(DefaultName) else f.name.ToOption(),
        f.amount.value, f.payCycle.value, f.nextPayDate.value,
        f.isMain == Val(true)))
    else
      None
  }

  /** `findByIdAndUpdate(id, { $set }, { runValidators: true })`: every
      path given is written; a required path set to `null` or a
      `payCycle` outside the enum fails validation and nothing changes. */
  function UpdateDocument(i: Income, f: IncomeFields): (r: Option<Income>)
    ensures r.Some? <==> !f.amount.Null? && !f.nextPayDate.Null?
                         && !f.payCycle.Null? && (f.payCycle.Val? ==> IsIncomePayCycle(f.payCycle.value))
    ensures r.Some? ==> r.value.id == i.id && r.value.userId == i.userId
    ensures r.Some? ==> r.value.name == (if f.name.Defined() then f.name.ToOption() else i.name)
    ensures r.Some? ==> r.value.amount == (if f.amount.Val? then f.amount.value else i.amount)
    ensures r.Some? ==> r.value.payCycle == (if f.payCycle.Val? then f.payCycle.value else i.payCycle)
    ensures r.Some? ==> r.value.nextPayDate == (if f.nextPayDate.Val? then f.nextPayDate.value else i.nextPayDate)
    ensures r.Some? ==> r.value.isMain == (if f.isMain.Defined() then f.isMain == Val(true) else i.isMain)
    ensures r.Some? && ValidIncome(i) ==> ValidIncome(r.value)
  {
    if f.amount.Null? || f.nextPayDate.Null? || f.payCycle.Null?
       || (f.payCycle.Val? && !IsIncomePayCycle(f.payCycle.value)) then
      None
    else
      Some(i.(
        name := if f.name.Defined() then f.name.ToOption() else i.name,
        amount := if f.amount.Val? then f.amount.value else i.amount,
        payCycle := if f.payCycle.Val? then f.payCycle.value else i.payCycle,
        nextPayDate := if f.nextPayDate.Val? then f.nextPayDate.value else i.nextPayDate,
        isMain := if f.isMain.Defined() then f.isMain == Val(true) else i.isMain))
  }

  /** An update that sets no path gives the document back unchanged. */
  lemma EmptyUpdateKeepsDocument(i: Income)
    ensures UpdateDocument(i, IncomeFields(Undefined, Undefined, Undefined, Undefined, Undefined)) == Some(i)
  {
  }
}
