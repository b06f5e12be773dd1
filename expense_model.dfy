/** The expense record of `src/models/Expense.js`: its enums, `min: 0` on
    the amount, the trimmed text paths, the default note, and the paths
    required only for one expense type. */
module ExpenseModel {
  import opened Wrappers
  import opened Dates
  import opened JsText
  import opened IncomeModel

  /** A stored expense. A path that is absent or `null` is `None`. */
  datatype Expense = Expense(
    id: Id,
    userId: Id,
    name: string,
    amount: int,
    category: string,
    note: Option<string>,
    spendFrom: string,
    expenseType: string,
    payCycle: Option<string>,
    createdAt: Option<Instant>,
    nextPaymentDate: Option<Instant>)

  predicate IsSpendFrom(s: string) {
    s == "needs" || s == "wants" || s == "savings"
  }

  predicate IsExpenseType(s: string) {
    s == "one-time" || s == "recurring"
  }

  /** The `payCycle` enum of an expense, which has no `one-time`. */
  predicate IsExpensePayCycle(s: string) {
    s == "weekly" || s == "biweekly" || s == "monthly"
  }

  /** A required, trimmed text path: some text with no white space at
      either end, which is exactly the text `trim` leaves alone
      (`JsText.TrimFixedPoints`). */
  predicate RequiredText(s: string) {
    s != "" && NoWhiteEnds(s)
  }

  /** Every rule the schema declares, on a stored record. */
  predicate ValidExpense(e: Expense) {
    && RequiredText(e.name)
    && e.amount >= 0
    && RequiredText(e.category)
    && (e.note.Some? ==> NoWhiteEnds(e.note.value))
    && IsSpendFrom(e.spendFrom)
    && IsExpenseType(e.expenseType)
    && (e.payCycle.Some? ==> IsExpensePayCycle(e.payCycle.value))
    && (e.expenseType == "recurring" ==> e.payCycle.Some? && e.nextPaymentDate.Some?)
    && (e.expenseType == "one-time" ==> e.createdAt.Some?)
  }

  /** The paths of an expense a controller writes; `Undefined` leaves a
      path out. */
  datatype ExpenseData = ExpenseData(
    name: Js<string>,
    amount: Js<int>,
    category: Js<string>,
    note: Js<string>,
    spendFrom: Js<string>,
    expenseType: Js<string>,
    payCycle: Js<string>,
    createdAt: Js<Instant>,
    nextPaymentDate: Js<Instant>)

  /** A text path set to `null` is stored as `null`, any other text trimmed. */
  function TrimmedOption(x: Js<string>): (r: Option<string>)
    ensures x.Val? <==> r.Some?
    ensures x.Val? ==> r.value == Trim(x.value)
    ensures r.Some? ==> NoWhiteEnds(r.value)
  {
    if x.Val? then Some(Trim(x.value)) else None
  }

  /** The record the data would become, before the validators run. */
  function Candidate(id: Id, userId: Id, d: ExpenseData): Expense
    requires d.name.Val? && d.amount.Val? && d.category.Val? && d.spendFrom.Val? && d.expenseType.Val?
  {
    Expense(id, userId, Trim(d.name.value), d.amount.value, Trim(d.category.value),
            if d.note.Undefined? then Some("") else TrimmedOption(d.note),
            d.spendFrom.value, d.expenseType.value,
            d.payCycle.ToOption(), d.createdAt.ToOption(), d.nextPaymentDate.ToOption())
  }

  /** The declared rules, read off the data the candidate is made from. */
  lemma CandidateValid(id: Id, userId: Id, d: ExpenseData)
    requires d.name.Val? && d.amount.Val? && d.category.Val? && d.spendFrom.Val? && d.expenseType.Val?
    ensures ValidExpense(Candidate(id, userId, d)) <==>
      && Trim(d.name.value) != ""
      && d.amount.value >= 0
      && Trim(d.category.value) != ""
      && IsSpendFrom(d.spendFrom.value)
      && IsExpenseType(d.expenseType.value)
      && (d.payCycle.Val? ==> IsExpensePayCycle(d.payCycle.value))
      && (d.expenseType.value == "recurring" ==> d.payCycle.Val? && d.nextPaymentDate.Val?)
      && (d.expenseType.value == "one-time" ==> d.createdAt.Val?)
  {
  }

  /** `Expense.create(data)`: text is trimmed and a missing note becomes
      `""`; the document is stored only if every declared rule holds. */
  function CreateDocument(id: Id, userId: Id, d: ExpenseData): (r: Option<Expense>)
    ensures r.Some? <==>
      && d.name.Val? && Trim(d.name.value) != ""
      && d.amount.Val? && d.amount.value >= 0
      && d.category.Val? && Trim(d.category.value) != ""
      && d.spendFrom.Val? && IsSpendFrom(d.spendFrom.value)
      && d.expenseType.Val? && IsExpenseType(d.expenseType.value)
      && (d.payCycle.Val? ==> IsExpensePayCycle(d.payCycle.value))
      && (d.expenseType.value == "recurring" ==> d.payCycle.Val? && d.nextPaymentDate.Val?)
      && (d.expenseType.value == "one-time" ==> d.createdAt.Val?)
    ensures r.Some? ==> ValidExpense(r.value)
    ensures r.Some? ==>
      && r.value.id == id && r.value.userId == userId
      && r.value.name == Trim(d.name.value) && r.value.category == Trim(d.category.value)
      && r.value.amount == d.amount.value
      && r.value.spendFrom == d.spendFrom.value && r.value.expenseType == d.expenseType.value
      && r.value.payCycle == d.payCycle.ToOption()
      && r.value.createdAt == d.createdAt.ToOption()
      && r.value.nextPaymentDate == d.nextPaymentDate.ToOption()
    ensures r.Some? && d.note.Undefined? ==> r.value.note == Some("")
    ensures r.Some? && d.note.Val? ==> r.value.note == Some(Trim(d.note.value))
  {
    if d.name.Val? && d.amount.Val? && d.category.Val? && d.spendFrom.Val? && d.expenseType.Val? then
      var e := Candidate(id, userId, d);
      CandidateValid(id, userId, d);
      if ValidExpense(e) then Some(e) else None
    else
      None
  }

  /** The paths of a `$set` update of an expense. A path given as
      `Undefined` is not written; `Clear` removes the stored value, which
      is how the model reads a path the controller sets to `undefined`. */
  datatype Patch<T> = Keep | Clear | Set(value: Js<T>)

  datatype ExpenseUpdate = ExpenseUpdate(
    name: Js<string>,
    amount: Js<int>,
    category: Js<string>,
    note: Js<string>,
    spendFrom: Js<string>,
    expenseType: Js<string>,
    payCycle: Patch<string>,
    createdAt: Patch<Instant>,
    nextPaymentDate: Patch<Instant>)

  function Patched<T>(stored: Option<T>, p: Patch<T>): (r: Option<T>)
    ensures p.Keep? ==> r == stored
    ensures p.Clear? ==> r == None
    ensures p.Set? ==> r == p.value.ToOption()
  {
    match p
    case Keep => stored
    case Clear => None
    case Set(v) => v.ToOption()
  }

  /** The record with the paths of `u` written over `e`: text trimmed, a
      `null` note stored as `null`, and every path `u` leaves out kept. */
  function Applied(e: Expense, u: ExpenseUpdate): (x: Expense)
    requires !u.name.Null? && !u.amount.Null? && !u.category.Null? && !u.spendFrom.Null? && !u.expenseType.Null?
    ensures x.id == e.id && x.userId == e.userId
    ensures x.name == (if u.name.Val? then Trim(u.name.value) else e.name)
    ensures x.amount == (if u.amount.Val? then u.amount.value else e.amount)
    ensures x.category == (if u.category.Val? then Trim(u.category.value) else e.category)
    ensures x.note == (if u.note.Defined() then TrimmedOption(u.note) else e.note)
    ensures x.spendFrom == (if u.spendFrom.Val? then u.spendFrom.value else e.spendFrom)
    ensures x.expenseType == (if u.expenseType.Val? then u.expenseType.value else e.expenseType)
    ensures x.payCycle == Patched(e.payCycle, u.payCycle)
    ensures x.createdAt == Patched(e.createdAt, u.createdAt)
    ensures x.nextPaymentDate == Patched(e.nextPaymentDate, u.nextPaymentDate)
  {
    e.(
      name := if u.name.Val? then Trim(u.name.value) else e.name,
      amount := if u.amount.Val? then u.amount.value else e.amount,
      category := if u.category.Val? then Trim(u.category.value) else e.category,
      note := if u.note.Defined() then TrimmedOption(u.note) else e.note,
      spendFrom := if u.spendFrom.Val? then u.spendFrom.value else e.spendFrom,
      expenseType := if u.expenseType.Val? then u.expenseType.value else e.expenseType,
      payCycle := Patched(e.payCycle, u.payCycle),
      createdAt := Patched(e.createdAt, u.createdAt),
      nextPaymentDate := Patched(e.nextPaymentDate, u.nextPaymentDate))
  }

  /** The write of an update to an expense: a required path set to `null`
      is refused, and otherwise the written record is stored exactly when
      the whole record keeps every declared rule. This is stricter than
      `runValidators`, which checks only the paths in `$set`. */
  function UpdateDocument(e: Expense, u: ExpenseUpdate): (r: Option<Expense>)
    ensures r.Some? <==>
      && !u.name.Null? && !u.amount.Null? && !u.category.Null? && !u.spendFrom.Null? && !u.expenseType.Null?
      && ValidExpense(Applied(e, u))
    ensures r.Some? ==> r.value == Applied(e, u) && ValidExpense(r.value)
  {
    if u.name.Null? || u.amount.Null? || u.category.Null? || u.spendFrom.Null? || u.expenseType.Null? then
      None
    else
      var x := Applied(e, u);
      if ValidExpense(x) then Some(x) else None
  }

  /** A negative amount or a blank name is never written. */
  lemma UpdateRefusesInvalid(e: Expense, u: ExpenseUpdate)
    requires (u.amount.Val? && u.amount.value < 0) || (u.name.Val? && Trim(u.name.value) == "")
    ensures UpdateDocument(e, u).None?
  {
  }

  /** An update that writes nothing gives a valid record back unchanged. */
  lemma EmptyUpdateKeepsExpense(e: Expense)
    requires ValidExpense(e)
    ensures UpdateDocument(e, ExpenseUpdate(Undefined, Undefined, Undefined, Undefined, Undefined, Undefined,
                                            Keep, Keep, Keep)) == Some(e)
  {
  }
}
