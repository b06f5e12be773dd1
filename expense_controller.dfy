/** The expense routes of `src/controllers/expenseController.js`: the
    cycle of the user's main income, adding and updating an expense with
    the paths each expense type keeps or clears, and the expenses of the
    current cycle in date order. The collections of incomes and expenses,
    the signed-in user's id, the current instant and the id of a new
    document are parameters. */
module ExpenseController {
  import opened Wrappers
  import opened Dates
  import opened JsText
  import opened IncomeModel
  import opened Cycle
  import opened ExpenseModel
  import opened Sorting
  import IncomeController

  datatype ExpenseError =
    | MissingExpenseFields      // 400 "name, amount, category, spendFrom, and expenseType are required"
    | InvalidSpendFrom          // 400 "spendFrom must be: needs, wants, or savings"
    | InvalidExpenseType        // 400 "expenseType must be: one-time or recurring"
    | PayCycleRequired          // 400 "payCycle is required for recurring expenses"
    | InvalidExpensePayCycle    // 400 "payCycle must be: weekly, biweekly, or monthly"
    | NextPaymentDateRequired   // 400 "nextPaymentDate is required for recurring expenses"
    | ExpenseNotFound           // 404 "Expense not found"
    | NoMainIncome              // 400 "NO_MAIN_INCOME"
    | OneTimeMainIncome         // 500 "One-time income cannot be used as main income ..."
    | CycleFailed(e: CycleError) // 500, `calculateCycle` threw
    | ValidationFailed          // 500, a schema validator refused the document

  /** The paths of a request body; dates are already parsed instants. */
  datatype ExpenseBody = ExpenseBody(
    name: Js<string>,
    amount: Js<int>,
    category: Js<string>,
    note: Js<string>,
    spendFrom: Js<string>,
    expenseType: Js<string>,
    payCycle: Js<string>,
    createdAt: Js<Instant>,
    nextPaymentDate: Js<Instant>)

  // ---------------------------------------------------------------------
  // The cycle of the main income

  /** `getCurrentCycle(userId)` given the user's main income, if any. */
  function GetCurrentCycle(mainIncome: Option<Income>): (r: Result<CycleWindow, ExpenseError>)
    ensures mainIncome.None? ==> r == Failure(NoMainIncome)
    ensures mainIncome.Some? && mainIncome.value.payCycle == "one-time" ==> r == Failure(OneTimeMainIncome)
    ensures mainIncome.Some? && mainIncome.value.payCycle != "one-time" ==>
      match CalculateCycle(mainIncome)
      case Success(w) => r == Success(w)
      case Failure(e) => r == Failure(CycleFailed(e))
  {
    if mainIncome.None? then Failure(NoMainIncome)
    else if mainIncome.value.payCycle == "one-time" then Failure(OneTimeMainIncome)
    else
      match CalculateCycle(mainIncome)
      case Success(w) => Success(w)
      case Failure(e) => Failure(CycleFailed(e))
  }

  /** A main income that keeps its schema's enum always gives a cycle
      unless it is a one-time income. */
  lemma CurrentCycleOfValidMain(mainIncome: Income)
    requires ValidIncome(mainIncome) && mainIncome.payCycle != "one-time"
    ensures GetCurrentCycle(Some(mainIncome)).Success?
    ensures GetCurrentCycle(Some(mainIncome)).value == CalculateCycle(Some(mainIncome)).value
  {
  }

  // ---------------------------------------------------------------------
  // Adding an expense

  /** `POST /api/expense/add`: the checks of the body in the order the
      route makes them, then the document it creates. A one-time expense
      keeps its `createdAt` (or gets `now`) and has no pay cycle or next
      payment date; a recurring one has both and no `createdAt`. */
  function AddExpense(id: Id, userId: Id, body: ExpenseBody, now: Instant): (r: Result<Expense, ExpenseError>)
    ensures !(TruthyString(body.name) && TruthyNumber(body.amount) && TruthyString(body.category)
              && TruthyString(body.spendFrom) && TruthyString(body.expenseType)) ==>
      r == Failure(MissingExpenseFields)
    ensures r.Success? ==>
      && ValidExpense(r.value)
      && r.value.id == id && r.value.userId == userId
      && r.value.name == Trim(body.name.value) && r.value.amount == body.amount.value
      && r.value.category == Trim(body.category.value)
      && r.value.note == Some(if TruthyString(body.note) then Trim(body.note.value) else "")
      && r.value.spendFrom == body.spendFrom.value && r.value.expenseType == body.expenseType.value
    ensures r.Success? && r.value.expenseType == "one-time" ==>
      && r.value.createdAt == Some(if body.createdAt.Val? then body.createdAt.value else now)
      && r.value.payCycle.None? && r.value.nextPaymentDate.None?
    ensures r.Success? && r.value.expenseType == "recurring" ==>
      && body.payCycle.Val? && body.nextPaymentDate.Val?
      && r.value.payCycle == Some(body.payCycle.value)
      && r.value.nextPaymentDate == Some(body.nextPaymentDate.value)
      && r.value.createdAt.None?
  {
    if !(TruthyString(body.name) && TruthyNumber(body.amount) && TruthyString(body.category)
         && TruthyString(body.spendFrom) && TruthyString(body.expenseType)) then
      Failure(MissingExpenseFields)
    else if !IsSpendFrom(body.spendFrom.value) then
      Failure(InvalidSpendFrom)
    else if !IsExpenseType(body.expenseType.value) then
      Failure(InvalidExpenseType)
    else
      var data := ExpenseData(body.name, body.amount, body.category,
                              Val(StringOr(body.note, "")), body.spendFrom, body.expenseType,
                              Undefined, Undefined, Undefined);
      var shaped :=
        if body.expenseType.value == "one-time" then
          Success(data.(createdAt := Val(if body.createdAt.Val? then body.createdAt.value else now)))
        else if !TruthyString(body.payCycle) then
          Failure(PayCycleRequired)
        else if !IsExpensePayCycle(body.payCycle.value) then
          Failure(InvalidExpensePayCycle)
        else if !body.nextPaymentDate.Val? then
          Failure(NextPaymentDateRequired)
        else
          Success(data.(payCycle := body.payCycle, nextPaymentDate := body.nextPaymentDate));
      if shaped.Failure? then
        Failure(shaped.error)
      else
        match ExpenseModel.CreateDocument(id, userId, shaped.value)
        case Some(e) => Success(e)
        case None => Failure(ValidationFailed)
  }

  /** The body checks of `addExpense`, and after them the schema's: the
      route succeeds exactly when the name and category are not blank
      and the amount is not negative. */
  lemma AddExpenseAccepts(id: Id, userId: Id, body: ExpenseBody, now: Instant)
    requires TruthyString(body.name) && TruthyNumber(body.amount) && TruthyString(body.category)
    requires TruthyString(body.spendFrom) && TruthyString(body.expenseType)
    ensures !IsSpendFrom(body.spendFrom.value) ==>
      AddExpense(id, userId, body, now) == Failure(InvalidSpendFrom)
    ensures IsSpendFrom(body.spendFrom.value) && !IsExpenseType(body.expenseType.value) ==>
      AddExpense(id, userId, body, now) == Failure(InvalidExpenseType)
    ensures IsSpendFrom(body.spendFrom.value) && body.expenseType.value == "recurring" ==>
      && (!TruthyString(body.payCycle) ==> AddExpense(id, userId, body, now) == Failure(PayCycleRequired))
      && (TruthyString(body.payCycle) && !IsExpensePayCycle(body.payCycle.value) ==>
            AddExpense(id, userId, body, now) == Failure(InvalidExpensePayCycle))
      && (TruthyString(body.payCycle) && IsExpensePayCycle(body.payCycle.value) && !body.nextPaymentDate.Val? ==>
            AddExpense(id, userId, body, now) == Failure(NextPaymentDateRequired))
    ensures AddExpense(id, userId, body, now).Success? <==>
      && IsSpendFrom(body.spendFrom.value) && IsExpenseType(body.expenseType.value)
      && (body.expenseType.value == "recurring" ==>
            TruthyString(body.payCycle) && IsExpensePayCycle(body.payCycle.value) && body.nextPaymentDate.Val?)
      && Trim(body.name.value) != "" && Trim(body.category.value) != "" && body.amount.value >= 0
  {
  }

  /** The schema allows an amount of 0, but the route's truthiness check
      refuses it before the schema is consulted. */
  lemma ZeroAmountRefused(id: Id, userId: Id, body: ExpenseBody, now: Instant)
    requires body.amount == Val(0)
    ensures AddExpense(id, userId, body, now) == Failure(MissingExpenseFields)
  {
  }

  // ---------------------------------------------------------------------
  // Updating an expense

  /** `Expense.findOne({ _id: id, userId })`. */
  function FindExpense(s: seq<Expense>, userId: Id, id: Id): (r: Option<Expense>)
    ensures r.Some? ==> r.value in s && r.value.id == id && r.value.userId == userId
    ensures r.None? ==> forall k :: 0 <= k < |s| ==> !(s[k].id == id && s[k].userId == userId)
  {
    if |s| == 0 then None
    else if s[0].id == id && s[0].userId == userId then Some(s[0])
    else FindExpense(s[1..], userId, id)
  }

  /** `new Date(x)` of an update body: `null` is the epoch. */
  function DateOrEpoch(x: Js<Instant>): (r: Instant)
    requires x.Defined()
    ensures x.Val? ==> r == x.value
    ensures x.Null? ==> r == 0
  {
    if x.Val? then x.value else 0
  }

  /** `spendFrom`, when the body defines it, is in the enum; `null` is not. */
  predicate SpendFromOk(body: ExpenseBody) {
    body.spendFrom.Defined() ==> body.spendFrom.Val? && IsSpendFrom(body.spendFrom.value)
  }

  predicate ExpenseTypeOk(body: ExpenseBody) {
    body.expenseType.Defined() ==> body.expenseType.Val? && IsExpenseType(body.expenseType.value)
  }

  predicate PayCycleOk(body: ExpenseBody) {
    body.payCycle.Defined() ==> body.payCycle.Val? && IsExpensePayCycle(body.payCycle.value)
  }

  /** The `$set` document `updateExpense` builds for the stored expense `e`:
      the paths the body defines, then the paths the final expense type
      decides. The enum checks come first and refuse `null` as well. The
      paths the source sets to `undefined` are modelled as `Clear`, the
      value removed (the behaviour of Mongoose before version 7; later
      versions drop such keys and keep the stored value). */
  function UpdateData(e: Expense, body: ExpenseBody, now: Instant): (r: Result<ExpenseUpdate, ExpenseError>)
    ensures !SpendFromOk(body) ==> r == Failure(InvalidSpendFrom)
    ensures SpendFromOk(body) && !ExpenseTypeOk(body) ==> r == Failure(InvalidExpenseType)
    ensures SpendFromOk(body) && ExpenseTypeOk(body) && FinalType(e, body) == "recurring" && !PayCycleOk(body) ==>
      r == Failure(InvalidExpensePayCycle)
    ensures r.Success? <==>
      SpendFromOk(body) && ExpenseTypeOk(body) && (FinalType(e, body) == "recurring" ==> PayCycleOk(body))
    ensures r.Success? ==>
      && r.value.name == body.name && r.value.amount == body.amount && r.value.category == body.category
      && r.value.note == body.note && r.value.spendFrom == body.spendFrom && r.value.expenseType == body.expenseType
    ensures r.Success? && FinalType(e, body) == "one-time" ==>
      && r.value.createdAt == Set(Val(if body.createdAt.Val? then body.createdAt.value
                                      else if e.createdAt.Some? then e.createdAt.value else now))
      && r.value.payCycle == Clear && r.value.nextPaymentDate == Clear
    ensures r.Success? && FinalType(e, body) == "recurring" ==>
      && r.value.payCycle == (if body.payCycle.Defined() then Set(body.payCycle) else Keep)
      && r.value.nextPaymentDate == (if body.nextPaymentDate.Defined() then Set(Val(DateOrEpoch(body.nextPaymentDate))) else Keep)
      && r.value.createdAt == Clear
    ensures r.Success? && FinalType(e, body) != "one-time" && FinalType(e, body) != "recurring" ==>
      r.value.payCycle == Keep && r.value.createdAt == Keep && r.value.nextPaymentDate == Keep
  {
    if !SpendFromOk(body) then
      Failure(InvalidSpendFrom)
    else if !ExpenseTypeOk(body) then
      Failure(InvalidExpenseType)
    else
      var u := ExpenseUpdate(body.name, body.amount, body.category, body.note, body.spendFrom, body.expenseType,
                             Keep, Keep, Keep);
      var finalType := FinalType(e, body);
      if finalType == "one-time" then
        var createdAt := if body.createdAt.Val? then body.createdAt.value
                         else if e.createdAt.Some? then e.createdAt.value else now;
        Success(u.(createdAt := Set(Val(createdAt)), payCycle := Clear, nextPaymentDate := Clear))
      else if finalType == "recurring" then
        if !PayCycleOk(body) then
          Failure(InvalidExpensePayCycle)
        else
          Success(u.(payCycle := if body.payCycle.Defined() then Set(body.payCycle) else Keep,
                     nextPaymentDate := if body.nextPaymentDate.Defined()
                                        then Set(Val(DateOrEpoch(body.nextPaymentDate))) else Keep,
                     createdAt := Clear))
      else
        Success(u)
  }

  /** The expense type the record will have: the body's, or else the stored one. */
  function FinalType(e: Expense, body: ExpenseBody): (t: string)
    ensures body.expenseType.Undefined? ==> t == e.expenseType
    ensures body.expenseType.Val? ==> t == body.expenseType.value
  {
    if body.expenseType.Val? then body.expenseType.value
    else if body.expenseType.Null? then ""
    else e.expenseType
  }

  /** `PUT /api/expense/:id/update`: the user's expense with the update
      written, stored only if the whole record keeps every declared rule
      (`ExpenseModel.UpdateDocument`). */
  function UpdateExpense(expenses: seq<Expense>, userId: Id, id: Id, body: ExpenseBody, now: Instant)
    : (r: Result<Expense, ExpenseError>)
    ensures FindExpense(expenses, userId, id).None? ==> r == Failure(ExpenseNotFound)
    ensures r.Success? ==>
      var e := FindExpense(expenses, userId, id).value;
      && UpdateData(e, body, now).Success?
      && ExpenseModel.UpdateDocument(e, UpdateData(e, body, now).value) == Some(r.value)
      && ValidExpense(r.value)
      && r.value.id == id && r.value.userId == userId
    ensures FindExpense(expenses, userId, id).Some? ==>
      var e := FindExpense(expenses, userId, id).value;
      && (UpdateData(e, body, now).Failure? ==> r == Failure(UpdateData(e, body, now).error))
      && (UpdateData(e, body, now).Success? && ExpenseModel.UpdateDocument(e, UpdateData(e, body, now).value).None? ==>
            r == Failure(ValidationFailed))
  {
    match FindExpense(expenses, userId, id)
    case None => Failure(ExpenseNotFound)
    case Some(e) =>
      match UpdateData(e, body, now)
      case Failure(err) => Failure(err)
      case Success(u) =>
        match ExpenseModel.UpdateDocument(e, u)
        case Some(x) => Success(x)
        case None => Failure(ValidationFailed)
  }

  /** After an update the model's expense has exactly the paths of its
      final type, because the whole record is validated:
      a one-time expense a `createdAt` and neither recurring path, a
      recurring one both recurring paths and no `createdAt`; the text,
      amount and enums the body leaves out are the stored ones. */
  lemma UpdateShapesByFinalType(expenses: seq<Expense>, userId: Id, id: Id, body: ExpenseBody, now: Instant)
    requires UpdateExpense(expenses, userId, id, body, now).Success?
    ensures var e := FindExpense(expenses, userId, id).value;
      var x := UpdateExpense(expenses, userId, id, body, now).value;
      && x.expenseType == FinalType(e, body)
      && (x.expenseType == "one-time" ==>
            x.createdAt.Some? && x.payCycle.None? && x.nextPaymentDate.None?)
      && (x.expenseType == "recurring" ==>
            x.createdAt.None? && x.payCycle.Some? && x.nextPaymentDate.Some?)
      && (body.name.Undefined? ==> x.name == e.name)
      && (body.amount.Undefined? ==> x.amount == e.amount)
      && (body.category.Undefined? ==> x.category == e.category)
      && (body.note.Undefined? ==> x.note == e.note)
      && (body.spendFrom.Undefined? ==> x.spendFrom == e.spendFrom)
  {
  }

  /** Turning a recurring expense without a `createdAt` into a one-time
      one without giving a date dates it `now`. */
  lemma RecurringToOneTimeDatedNow(expenses: seq<Expense>, userId: Id, id: Id, body: ExpenseBody, now: Instant)
    requires FindExpense(expenses, userId, id).Some?
    requires FindExpense(expenses, userId, id).value.createdAt.None?
    requires body.expenseType == Val("one-time") && !body.createdAt.Val?
    requires UpdateExpense(expenses, userId, id, body, now).Success?
    ensures UpdateExpense(expenses, userId, id, body, now).value.createdAt == Some(now)
  {
  }

  /** `DELETE /api/expense/:id`: the first of the user's expenses with that
      id is removed and every other expense is kept. */
  function DeleteExpense(s: seq<Expense>, userId: Id, id: Id): (r: Result<seq<Expense>, ExpenseError>)
    ensures FindExpense(s, userId, id).None? <==> r == Failure(ExpenseNotFound)
    ensures r.Success? ==> multiset(r.value) == multiset(s) - multiset{FindExpense(s, userId, id).value}
    ensures r.Success? ==> |r.value| == |s| - 1
  {
    if |s| == 0 then Failure(ExpenseNotFound)
    else if s[0].id == id && s[0].userId == userId then
      assert s == [s[0]] + s[1..];
      Success(s[1..])
    else
      match DeleteExpense(s[1..], userId, id)
      case Failure(e) => Failure(e)
      case Success(rest) =>
        assert s == [s[0]] + s[1..];
        Success([s[0]] + rest)
  }

  // ---------------------------------------------------------------------
  // The expenses of the current cycle

  /** The query window of both `find` calls: `$gte: cycleStart, $lt: cycleEnd`. */
  predicate InWindow(t: Instant, cycleStart: Instant, cycleEnd: Instant) {
    cycleStart <= t < cycleEnd
  }

  /** What the two queries ask of an expense of the user: a one-time
      expense created in the window, or a recurring one whose next payment
      falls in it. */
  predicate InCurrentCycle(e: Expense, cycleStart: Instant, cycleEnd: Instant) {
    || (e.expenseType == "one-time" && e.createdAt.Some? && InWindow(e.createdAt.value, cycleStart, cycleEnd))
    || (e.expenseType == "recurring" && e.nextPaymentDate.Some? && InWindow(e.nextPaymentDate.value, cycleStart, cycleEnd))
  }

  /** `Expense.find({ userId, expenseType, <date>: { $gte, $lt } })`, where
      the date is `createdAt` for one-time and `nextPaymentDate` for
      recurring expenses; the stored order is kept. */
  function FindInCycle(s: seq<Expense>, userId: Id, expenseType: string, cycleStart: Instant, cycleEnd: Instant)
    : (r: seq<Expense>)
    requires expenseType == "one-time" || expenseType == "recurring"
    ensures forall x :: x in r <==>
      x in s && x.userId == userId && x.expenseType == expenseType && InCurrentCycle(x, cycleStart, cycleEnd)
    ensures multiset(r) <= multiset(s)
  {
    if |s| == 0 then []
    else
      var rest := FindInCycle(s[1..], userId, expenseType, cycleStart, cycleEnd);
      assert s == [s[0]] + s[1..];
      if s[0].userId == userId && s[0].expenseType == expenseType && InCurrentCycle(s[0], cycleStart, cycleEnd)
      then [s[0]] + rest
      else rest
  }

  /** The date the comparator of the route sorts by. */
  function RelevantDate(e: Expense): (t: int)
    ensures e.expenseType == "one-time" && e.createdAt.Some? ==> t == e.createdAt.value
    ensures e.expenseType != "one-time" && e.nextPaymentDate.Some? ==> t == e.nextPaymentDate.value
  {
    if e.expenseType == "one-time" then
      (if e.createdAt.Some? then e.createdAt.value else 0)
    else
      (if e.nextPaymentDate.Some? then e.nextPaymentDate.value else 0)
  }

  /** The body of `GET /api/expense/current-cycle`. */
  datatype CycleExpenses = CycleExpenses(cycleStart: Instant, cycleEnd: Instant, expenses: seq<Expense>)

  /** `getCurrentCycleExpenses`: the window of the main income's cycle and
      the user's expenses in it, one-time ones first and then recurring
      ones, sorted by their dates. */
  function GetCurrentCycleExpenses(incomes: seq<Income>, expenses: seq<Expense>, userId: Id)
    : (r: Result<CycleExpenses, ExpenseError>)
    ensures var cycle := GetCurrentCycle(IncomeController.FindMain(incomes, userId));
      && (cycle.Failure? ==> r == Failure(cycle.error))
      && (cycle.Success? ==> r.Success? && r.value.cycleStart == cycle.value.cycleStart
                                        && r.value.cycleEnd == cycle.value.cycleEnd)
    ensures r.Success? ==>
      var cs, ce := r.value.cycleStart, r.value.cycleEnd;
      && SortedBy(r.value.expenses, RelevantDate)
      && multiset(r.value.expenses) ==
           multiset(FindInCycle(expenses, userId, "one-time", cs, ce) + FindInCycle(expenses, userId, "recurring", cs, ce))
  {
    match GetCurrentCycle(IncomeController.FindMain(incomes, userId))
    case Failure(err) => Failure(err)
    case Success(w) =>
      var oneTime := FindInCycle(expenses, userId, "one-time", w.cycleStart, w.cycleEnd);
      var recurring := FindInCycle(expenses, userId, "recurring", w.cycleStart, w.cycleEnd);
      Success(CycleExpenses(w.cycleStart, w.cycleEnd, SortBy(oneTime + recurring, RelevantDate)))
  }

  /** The listed expenses are exactly the user's expenses of the cycle,
      each dated inside the window, and none is listed more often than it
      is stored. */
  lemma CurrentCycleExpensesExact(incomes: seq<Income>, expenses: seq<Expense>, userId: Id)
    requires GetCurrentCycleExpenses(incomes, expenses, userId).Success?
    ensures var r := GetCurrentCycleExpenses(incomes, expenses, userId).value;
      && (forall x :: x in r.expenses <==>
            x in expenses && x.userId == userId && InCurrentCycle(x, r.cycleStart, r.cycleEnd))
      && (forall k :: 0 <= k < |r.expenses| ==>
            InWindow(RelevantDate(r.expenses[k]), r.cycleStart, r.cycleEnd))
      && multiset(r.expenses) <= multiset(expenses)
  {
    var r := GetCurrentCycleExpenses(incomes, expenses, userId).value;
    var cs, ce := r.cycleStart, r.cycleEnd;
    var oneTime := FindInCycle(expenses, userId, "one-time", cs, ce);
    var recurring := FindInCycle(expenses, userId, "recurring", cs, ce);
    SameElements(r.expenses, oneTime + recurring);
    forall k | 0 <= k < |r.expenses| ensures InWindow(RelevantDate(r.expenses[k]), cs, ce) {
      assert r.expenses[k] in oneTime + recurring;
    }
    SelectionsDisjoint(expenses, userId, cs, ce);
  }

  /** The two queries pick different expenses, so together they pick no
      stored expense more often than it is stored. */
  lemma SelectionsDisjoint(expenses: seq<Expense>, userId: Id, cycleStart: Instant, cycleEnd: Instant)
    ensures multiset(FindInCycle(expenses, userId, "one-time", cycleStart, cycleEnd)
                     + FindInCycle(expenses, userId, "recurring", cycleStart, cycleEnd)) <= multiset(expenses)
  {
    var a := FindInCycle(expenses, userId, "one-time", cycleStart, cycleEnd);
    var b := FindInCycle(expenses, userId, "recurring", cycleStart, cycleEnd);
    forall x ensures multiset(a + b)[x] <= multiset(expenses)[x] {
      if x in a {
        assert x !in b;
        assert multiset(b)[x] == 0;
      } else {
        assert multiset(a)[x] == 0;
      }
    }
  }

  /** A one-time expense added with a date inside the current cycle is
      listed among the cycle's expenses. */
  lemma AddedExpenseListed(incomes: seq<Income>, expenses: seq<Expense>, userId: Id,
                           id: Id, body: ExpenseBody, now: Instant)
    requires AddExpense(id, userId, body, now).Success?
    requires GetCurrentCycleExpenses(incomes, expenses, userId).Success?
    requires var r := GetCurrentCycleExpenses(incomes, expenses, userId).value;
      body.expenseType == Val("one-time") && body.createdAt.Val?
      && InWindow(body.createdAt.value, r.cycleStart, r.cycleEnd)
    ensures var x := AddExpense(id, userId, body, now).value;
      var r := GetCurrentCycleExpenses(incomes, expenses + [x], userId);
      r.Success? && x in r.value.expenses
  {
    var x := AddExpense(id, userId, body, now).value;
    var r := GetCurrentCycleExpenses(incomes, expenses, userId).value;
    var r' := GetCurrentCycleExpenses(incomes, expenses + [x], userId);
    assert r'.Success? && r'.value.cycleStart == r.cycleStart && r'.value.cycleEnd == r.cycleEnd;
    assert x.userId == userId && x.expenseType == "one-time" && x.createdAt == Some(body.createdAt.value);
    assert InCurrentCycle(x, r.cycleStart, r.cycleEnd);
    CurrentCycleExpensesExact(incomes, expenses + [x], userId);
  }
}
