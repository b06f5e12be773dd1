/** The user record of `src/models/User.js`: the normalised, unique email,
    the required paths, the defaults of `budgetRatio`, `currentSavings`
    and `viewCycle`, and the enum of `viewCycle`. */
module UserModel {
  import opened Wrappers
  import opened JsText
  import opened IncomeModel

  /** The share of the budget each kind of spending gets. */
  datatype BudgetRatio = BudgetRatio(needs: int, wants: int, savings: int)

  const DefaultBudgetRatio: BudgetRatio := BudgetRatio(50, 30, 20)

  /** A stored user. `budgetRatio` and `currentSavings` written as `null`
      are `None`. The three day fields are written by registration though
      the schema does not declare them. */
  datatype User = User(
    id: Id,
    email: string,
    passwordHash: string,
    name: string,
    budgetRatio: Option<BudgetRatio>,
    currentSavings: Option<int>,
    viewCycle: string,
    weekDay: Option<int>,
    fortnightStartDay: Option<int>,
    monthDate: Option<int>)

  /** The `viewCycle` enum of the schema, which has `"yearly"`. */
  predicate IsUserViewCycle(s: string) {
    s == "weekly" || s == "fortnightly" || s == "monthly" || s == "yearly"
  }

  /** No capital A to Z. */
  predicate NoCapitals(s: string) {
    forall i :: 0 <= i < |s| ==> !('A' <= s[i] <= 'Z')
  }

  /** What `lowercase: true, trim: true` make of an email. */
  function NormalEmail(s: string): (r: string)
    ensures NoWhiteEnds(r) && NoCapitals(r)
    ensures |r| <= |s|
  {
    var t := Trim(s);
    if |t| > 0 then
      LowerWhite(t[0]);
      LowerWhite(t[|t| - 1]);
      ToLower(t)
    else
      ToLower(t)
  }

  /** The normal emails are exactly the ones normalising leaves alone. */
  lemma NormalEmailFixedPoints(s: string)
    ensures NormalEmail(s) == s <==> NoWhiteEnds(s) && NoCapitals(s)
  {
    if NoWhiteEnds(s) && NoCapitals(s) {
      TrimFixedPoints(s);
      assert ToLower(s) == s;
    }
  }

  /** Normalising an email twice is normalising it once, and it does not
      matter whether case or white space goes first. */
  lemma NormalEmailIdempotent(s: string)
    ensures NormalEmail(NormalEmail(s)) == NormalEmail(s)
    ensures NormalEmail(s) == Trim(ToLower(s))
  {
    LowerTrimCommute(s);
    LowerTrimCommute(Trim(s));
    TrimIdempotent(s);
    LowerIdempotent(Trim(s));
  }

  /** The declared rules on a stored user: the required strings are not
      empty once normalised, and `viewCycle` is in the enum. */
  predicate ValidUser(u: User) {
    && u.email != "" && NoWhiteEnds(u.email) && NoCapitals(u.email)
    && u.passwordHash != ""
    && u.name != "" && NoWhiteEnds(u.name)
    && IsUserViewCycle(u.viewCycle)
  }

  /** The `unique` index on `email`. */
  predicate UniqueEmails(s: seq<User>) {
    forall j, k :: 0 <= j < k < |s| ==> s[j].email != s[k].email
  }

  /** The paths registration writes. */
  datatype UserData = UserData(
    email: string,
    passwordHash: string,
    name: string,
    budgetRatio: Option<BudgetRatio>,
    currentSavings: Option<int>,
    viewCycle: string,
    weekDay: Option<int>,
    fortnightStartDay: Option<int>,
    monthDate: Option<int>)

  /** `User.create(data)` among the stored users: the email and name are
      normalised, and the document is stored if every declared rule holds
      and no stored user has the same email. */
  function CreateDocument(users: seq<User>, id: Id, d: UserData): (r: Option<User>)
    ensures r.Some? <==>
      && NormalEmail(d.email) != "" && d.passwordHash != "" && Trim(d.name) != ""
      && IsUserViewCycle(d.viewCycle)
      && forall k :: 0 <= k < |users| ==> users[k].email != NormalEmail(d.email)
    ensures r.Some? ==>
      && ValidUser(r.value)
      && r.value == User(id, NormalEmail(d.email), d.passwordHash, Trim(d.name), d.budgetRatio,
                         d.currentSavings, d.viewCycle, d.weekDay, d.fortnightStartDay, d.monthDate)
    ensures r.Some? && UniqueEmails(users) ==> UniqueEmails(users + [r.value])
  {
    var u := User(id, NormalEmail(d.email), d.passwordHash, Trim(d.name), d.budgetRatio,
                  d.currentSavings, d.viewCycle, d.weekDay, d.fortnightStartDay, d.monthDate);
    if u.email != "" && u.passwordHash != "" && u.name != "" && IsUserViewCycle(u.viewCycle)
       && forall k :: 0 <= k < |users| ==> users[k].email != u.email
    then
      Some(u)
    else
      None
  }
}
