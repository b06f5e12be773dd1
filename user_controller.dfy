/** The profile routes of `src/controllers/userController.js`: reading the
    signed-in user and patching the three paths a user may change. The
    stored users and the signed-in user's id are parameters. */
module UserController {
  import opened Wrappers
  import opened JsText
  import opened IncomeModel
  import opened UserModel

  datatype UserError =
    | InvalidViewCycle  // 400 "Invalid viewCycle. Must be: weekly, fortnightly, monthly, or yearly"
    | UserNotFound      // 404 "User not found"
    | ValidationFailed  // 500, an update validator refused the patch

  /** The body of `PATCH /users/me`. Only `name`, `budgetRatio` and
      `viewCycle` are read; the other paths a client may send are listed
      to show that they are ignored. */
  datatype UpdateMeBody = UpdateMeBody(
    name: Js<string>,
    budgetRatio: Js<BudgetRatio>,
    viewCycle: Js<string>,
    email: Js<string>,
    passwordHash: Js<string>,
    currentSavings: Js<int>,
    monthDate: Js<int>)

  /** The user as this file's `formatUserResponse` shows it: neither the
      password's hash nor the day fields of the cycle. */
  datatype Profile = Profile(
    id: Id,
    email: string,
    name: string,
    budgetRatio: Option<BudgetRatio>,
    currentSavings: Option<int>,
    viewCycle: string)

  function FormatProfile(u: User): (r: Profile)
    ensures r.id == u.id && r.email == u.email && r.name == u.name
    ensures r.budgetRatio == u.budgetRatio && r.currentSavings == u.currentSavings && r.viewCycle == u.viewCycle
  {
    Profile(u.id, u.email, u.name, u.budgetRatio, u.currentSavings, u.viewCycle)
  }

  /** `User.findById(userId)`. */
  function FindUser(users: seq<User>, userId: Id): (r: Option<User>)
    ensures r.Some? ==> r.value in users && r.value.id == userId
    ensures r.None? ==> forall k :: 0 <= k < |users| ==> users[k].id != userId
  {
    if |users| == 0 then None
    else if users[0].id == userId then Some(users[0])
    else FindUser(users[1..], userId)
  }

  /** `GET /users/me`. */
  function GetMe(users: seq<User>, userId: Id): (r: Result<Profile, UserError>)
    ensures FindUser(users, userId).None? <==> r == Failure(UserNotFound)
    ensures r.Success? ==> r.value == FormatProfile(FindUser(users, userId).value)
  {
    match FindUser(users, userId)
    case None => Failure(UserNotFound)
    case Some(u) => Success(FormatProfile(u))
  }

  /** `viewCycle`, when the body defines it, is in the schema's enum,
      which has `"yearly"`; `null` is refused. */
  predicate ViewCycleOk(body: UpdateMeBody) {
    body.viewCycle.Defined() ==> body.viewCycle.Val? && IsUserViewCycle(body.viewCycle.value)
  }

  /** The update validators of the patch: a `name` that is written must
      not be `null` or blank once trimmed. */
  predicate NameOk(body: UpdateMeBody) {
    body.name.Defined() ==> body.name.Val? && Trim(body.name.value) != ""
  }

  /** The stored user with the whitelisted paths of the body written. */
  function Patched(u: User, body: UpdateMeBody): (r: User)
    requires NameOk(body)
    ensures r == u.(name := r.name, budgetRatio := r.budgetRatio, viewCycle := r.viewCycle)
    ensures r.name == (if body.name.Val? then Trim(body.name.value) else u.name)
    ensures r.budgetRatio == (if body.budgetRatio.Defined() then body.budgetRatio.ToOption() else u.budgetRatio)
    ensures r.viewCycle == (if body.viewCycle.Val? then body.viewCycle.value else u.viewCycle)
  {
    u.(name := if body.name.Val? then Trim(body.name.value) else u.name,
       budgetRatio := if body.budgetRatio.Defined() then body.budgetRatio.ToOption() else u.budgetRatio,
       viewCycle := if body.viewCycle.Val? then body.viewCycle.value else u.viewCycle)
  }

  /** `PATCH /users/me`: the `viewCycle` check, then the update, whose
      validators run before the user is looked up. The result is the new
      stored user; the route answers with `FormatProfile` of it. */
  function UpdateMe(users: seq<User>, userId: Id, body: UpdateMeBody): (r: Result<User, UserError>)
    ensures !ViewCycleOk(body) ==> r == Failure(InvalidViewCycle)
    ensures ViewCycleOk(body) && !NameOk(body) ==> r == Failure(ValidationFailed)
    ensures ViewCycleOk(body) && NameOk(body) && FindUser(users, userId).None? ==> r == Failure(UserNotFound)
    ensures r.Success? <==> ViewCycleOk(body) && NameOk(body) && FindUser(users, userId).Some?
    ensures r.Success? ==> r.value == Patched(FindUser(users, userId).value, body)
  {
    if !ViewCycleOk(body) then
      Failure(InvalidViewCycle)
    else if !NameOk(body) then
      Failure(ValidationFailed)
    else
      match FindUser(users, userId)
      case None => Failure(UserNotFound)
      case Some(u) => Success(Patched(u, body))
  }

  /** Only `name`, `budgetRatio` and `viewCycle` change; the email, the
      password's hash, the savings and the day fields stay as stored,
      whatever the body says about them. */
  lemma UpdateMeChangesOnlyWhitelist(users: seq<User>, userId: Id, body: UpdateMeBody)
    requires UpdateMe(users, userId, body).Success?
    ensures var u, x := FindUser(users, userId).value, UpdateMe(users, userId, body).value;
      && x.id == u.id && x.email == u.email && x.passwordHash == u.passwordHash
      && x.currentSavings == u.currentSavings
      && x.weekDay == u.weekDay && x.fortnightStartDay == u.fortnightStartDay && x.monthDate == u.monthDate
      && (body.name.Undefined? ==> x.name == u.name)
      && (body.budgetRatio.Undefined? ==> x.budgetRatio == u.budgetRatio)
      && (body.viewCycle.Undefined? ==> x.viewCycle == u.viewCycle)
  {
  }

  /** Applying the same patch twice is applying it once. */
  lemma PatchIdempotent(u: User, body: UpdateMeBody)
    requires NameOk(body)
    ensures Patched(Patched(u, body), body) == Patched(u, body)
  {
    if body.name.Val? {
      TrimIdempotent(body.name.value);
    }
  }

  /** A patch keeps a valid user valid. */
  lemma PatchKeepsValid(u: User, body: UpdateMeBody)
    requires ValidUser(u) && NameOk(body) && ViewCycleOk(body)
    ensures ValidUser(Patched(u, body))
  {
  }

  /** `updateMe` accepts `"yearly"`, which registration's validator
      refuses. */
  lemma YearlyAccepted(users: seq<User>, userId: Id, body: UpdateMeBody)
    requires FindUser(users, userId).Some?
    requires body.viewCycle == Val("yearly") && NameOk(body)
    ensures UpdateMe(users, userId, body).Success?
    ensures UpdateMe(users, userId, body).value.viewCycle == "yearly"
  {
  }

  /** A missing user is not found, whether read or patched. */
  lemma MissingUserNotFound(users: seq<User>, userId: Id, body: UpdateMeBody)
    requires forall k :: 0 <= k < |users| ==> users[k].id != userId
    requires ViewCycleOk(body) && NameOk(body)
    ensures GetMe(users, userId) == Failure(UserNotFound)
    ensures UpdateMe(users, userId, body) == Failure(UserNotFound)
  {
  }
}
