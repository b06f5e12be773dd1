/** Registration in `src/controllers/authController.js`: the required
    fields, the defaults of the view cycle and its day, of the budget
    ratio and of the savings, and the user as the response shows it. The
    stored users, the id of the new document and the password's hash are
    parameters. */
module AuthController {
  import opened Wrappers
  import opened JsText
  import opened IncomeModel
  import opened UserModel
  import opened ViewCycleValidation

  datatype AuthError =
    | MissingRegisterFields               // 400 "Email, password, and name are required"
    | EmailExists                         // 400 "Email already exists"
    | InvalidViewCycle(e: ViewCycleError) // 400, the validator's message
    | ValidationFailed                    // 500, a schema validator refused the document

  /** The body of `POST /auth/register`. */
  datatype RegisterBody = RegisterBody(
    email: Js<string>,
    password: Js<string>,
    name: Js<string>,
    budgetRatio: Js<BudgetRatio>,
    viewCycle: Js<string>,
    currentSavings: Js<int>,
    weekDay: Js<Arg>,
    fortnightStartDay: Js<Arg>,
    monthDate: Js<Arg>)

  /** `User.findOne({ email })`, whose filter is normalised as the path is. */
  predicate EmailTaken(users: seq<User>, email: string) {
    exists k :: 0 <= k < |users| && users[k].email == NormalEmail(email)
  }

  /** `viewCycle || "monthly"` */
  function FinalViewCycle(body: RegisterBody): (v: string)
    ensures TruthyString(body.viewCycle) ==> v == body.viewCycle.value
    ensures !TruthyString(body.viewCycle) ==> v == "monthly"
  {
    StringOr(body.viewCycle, "monthly")
  }

  /** A monthly cycle without a `monthDate` gets the 1st of the month. */
  function FinalMonthDate(body: RegisterBody): (m: Js<Arg>)
    ensures FinalViewCycle(body) == "monthly" && body.monthDate.Nullish() ==> m == Val(Num(1))
    ensures !(FinalViewCycle(body) == "monthly" && body.monthDate.Nullish()) ==> m == body.monthDate
  {
    if FinalViewCycle(body) == "monthly" && body.monthDate.Nullish() then Val(Num(1)) else body.monthDate
  }

  /** The validation `register` runs, on the defaulted cycle and day. */
  function CycleValidation(body: RegisterBody): Validation {
    ValidateViewCycle(Val(FinalViewCycle(body)), body.weekDay, body.fortnightStartDay, FinalMonthDate(body))
  }

  /** `register` up to the creation of the user: the checks in their
      order, then the document written with every default applied. */
  function Register(users: seq<User>, id: Id, body: RegisterBody, passwordHash: string): (r: Result<User, AuthError>)
    ensures !(TruthyString(body.email) && TruthyString(body.password) && TruthyString(body.name)) ==>
      r == Failure(MissingRegisterFields)
    ensures TruthyString(body.email) && TruthyString(body.password) && TruthyString(body.name)
            && EmailTaken(users, body.email.value) ==>
      r == Failure(EmailExists)
    ensures r.Success? <==>
      && TruthyString(body.email) && TruthyString(body.password) && TruthyString(body.name)
      && !EmailTaken(users, body.email.value) && CycleValidation(body).isValid
      && NormalEmail(body.email.value) != "" && passwordHash != "" && Trim(body.name.value) != ""
      && IsUserViewCycle(FinalViewCycle(body))
    ensures r.Success? ==>
      var v := CycleValidation(body);
      && v.isValid
      && ValidUser(r.value)
      && r.value.id == id
      && r.value.email == NormalEmail(body.email.value)
      && (forall k :: 0 <= k < |users| ==> users[k].email != r.value.email)
      && r.value.passwordHash == passwordHash
      && r.value.name == Trim(body.name.value)
      && r.value.budgetRatio == Some(if body.budgetRatio.Val? then body.budgetRatio.value else DefaultBudgetRatio)
      && r.value.currentSavings == (if body.currentSavings.Undefined? then Some(0) else body.currentSavings.ToOption())
      && r.value.viewCycle == FinalViewCycle(body)
      && r.value.weekDay == v.cleanedData.value.weekDay
      && r.value.fortnightStartDay == v.cleanedData.value.fortnightStartDay
      && r.value.monthDate == v.cleanedData.value.monthDate
    ensures TruthyString(body.email) && TruthyString(body.password) && TruthyString(body.name)
            && !EmailTaken(users, body.email.value) && !CycleValidation(body).isValid ==>
      r == Failure(InvalidViewCycle(CycleValidation(body).error.value))
  {
    if !(TruthyString(body.email) && TruthyString(body.password) && TruthyString(body.name)) then
      Failure(MissingRegisterFields)
    else if EmailTaken(users, body.email.value) then
      Failure(EmailExists)
    else
      var v := CycleValidation(body);
      if !v.isValid then
        Failure(InvalidViewCycle(v.error.value))
      else
        var c := v.cleanedData.value;
        var data := UserData(
          body.email.value, passwordHash, body.name.value,
          Some(if body.budgetRatio.Val? then body.budgetRatio.value else DefaultBudgetRatio),
          if body.currentSavings.Undefined? then Some(0) else body.currentSavings.ToOption(),
          FinalViewCycle(body), c.weekDay, c.fortnightStartDay, c.monthDate);
        match UserModel.CreateDocument(users, id, data)
        case Some(u) => Success(u)
        case None => Failure(ValidationFailed)
  }

  /** A registration that names neither a cycle nor a day gets a monthly
      cycle on the 1st, and nothing else about the cycle is stored. */
  lemma RegisterDefaults(users: seq<User>, id: Id, body: RegisterBody, passwordHash: string)
    requires TruthyString(body.email) && TruthyString(body.password) && TruthyString(body.name)
    requires !EmailTaken(users, body.email.value)
    requires NormalEmail(body.email.value) != "" && Trim(body.name.value) != "" && passwordHash != ""
    requires body.viewCycle.Nullish() && body.monthDate.Nullish()
    ensures Register(users, id, body, passwordHash).Success?
    ensures var u := Register(users, id, body, passwordHash).value;
      u.viewCycle == "monthly" && u.monthDate == Some(1) && u.weekDay.None? && u.fortnightStartDay.None?
  {
    DefaultCycleValid(body);
  }

  /** Without a cycle or a day, the validation passes on the 1st of the month. */
  lemma DefaultCycleValid(body: RegisterBody)
    requires body.viewCycle.Nullish() && body.monthDate.Nullish()
    ensures FinalViewCycle(body) == "monthly"
    ensures CycleValidation(body) == Validation(true, None, Some(CleanedData(None, None, Some(1))))
  {
    assert FinalMonthDate(body) == Val(Num(1));
    MonthlyOnTheFirst(body.weekDay, body.fortnightStartDay);
  }

  /** A registered user has exactly the day field of its cycle, in range. */
  lemma RegisteredCycleFields(users: seq<User>, id: Id, body: RegisterBody, passwordHash: string)
    requires Register(users, id, body, passwordHash).Success?
    ensures var u := Register(users, id, body, passwordHash).value;
      && IsViewCycle(u.viewCycle)
      && (u.weekDay.Some? <==> u.viewCycle == "weekly")
      && (u.fortnightStartDay.Some? <==> u.viewCycle == "fortnightly")
      && (u.monthDate.Some? <==> u.viewCycle == "monthly")
      && (u.weekDay.Some? ==> 0 <= u.weekDay.value <= 6)
      && (u.fortnightStartDay.Some? ==> 0 <= u.fortnightStartDay.value <= 6)
      && (u.monthDate.Some? ==> 1 <= u.monthDate.value <= 28)
  {
    var v := CycleValidation(body);
    ValidExactly(Val(FinalViewCycle(body)), body.weekDay, body.fortnightStartDay, FinalMonthDate(body));
    CleanedInRange(Val(FinalViewCycle(body)), body.weekDay, body.fortnightStartDay, FinalMonthDate(body));
  }

  /** Registration keeps one user per email. */
  lemma RegisterKeepsEmailsUnique(users: seq<User>, id: Id, body: RegisterBody, passwordHash: string)
    requires UniqueEmails(users)
    requires Register(users, id, body, passwordHash).Success?
    ensures UniqueEmails(users + [Register(users, id, body, passwordHash).value])
  {
    var u := Register(users, id, body, passwordHash).value;
    forall j, k | 0 <= j < k < |users + [u]| ensures (users + [u])[j].email != (users + [u])[k].email {
      if k == |users| {
        assert (users + [u])[j] == users[j];
      }
    }
  }

  /** The user of a response: everything but the password's hash. */
  datatype UserResponse = UserResponse(
    id: Id,
    email: string,
    name: string,
    budgetRatio: Option<BudgetRatio>,
    currentSavings: Option<int>,
    viewCycle: string,
    weekDay: Option<int>,
    fortnightStartDay: Option<int>,
    monthDate: Option<int>)

  /** `formatUserResponse(user)`: a monthly user without a `monthDate` is
      shown with the 1st. */
  function FormatUserResponse(u: User): (r: UserResponse)
    ensures r.monthDate == (if u.viewCycle == "monthly" && u.monthDate.None? then Some(1) else u.monthDate)
    ensures r.id == u.id && r.email == u.email && r.name == u.name && r.budgetRatio == u.budgetRatio
    ensures r.currentSavings == u.currentSavings && r.viewCycle == u.viewCycle
    ensures r.weekDay == u.weekDay && r.fortnightStartDay == u.fortnightStartDay
  {
    var finalMonthDate := if u.viewCycle == "monthly" && u.monthDate.None? then Some(1) else u.monthDate;
    UserResponse(u.id, u.email, u.name, u.budgetRatio, u.currentSavings, u.viewCycle,
                 u.weekDay, u.fortnightStartDay, finalMonthDate)
  }

  /** The response does not depend on the password's hash. */
  lemma ResponseHidesPasswordHash(u: User, passwordHash: string)
    ensures FormatUserResponse(u.(passwordHash := passwordHash)) == FormatUserResponse(u)
  {
  }

  /** A freshly registered user is shown as stored. */
  lemma RegisteredUserShownAsStored(users: seq<User>, id: Id, body: RegisterBody, passwordHash: string)
    requires Register(users, id, body, passwordHash).Success?
    ensures var u := Register(users, id, body, passwordHash).value;
      FormatUserResponse(u).monthDate == u.monthDate
  {
    ValidExactly(Val(FinalViewCycle(body)), body.weekDay, body.fortnightStartDay, FinalMonthDate(body));
  }
}
