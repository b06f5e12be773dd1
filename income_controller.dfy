/** The income routes of `src/controllers/incomeController.js` over an
    in-memory collection of incomes: creating and updating an income,
    choosing the main one, and the view of the current cycle with the
    income it brings. The signed-in user's id, today's instant and the id
    the database gives a new document are parameters. */
module IncomeController {
  import opened Wrappers
  import opened Dates
  import opened IncomeModel
  import opened Cycle
  import LegacyCycle

  datatype IncomeError =
    | MissingIncomeFields    // 400 "amount, payCycle, and nextPayDate are required"
    | InvalidIncomePayCycle  // 400 "payCycle must be: weekly, biweekly, monthly, or one-time"
    | IncomeNotFound         // 404 "Income not found"
    | NoMainIncome           // 400 "NO_MAIN_INCOME"
    | OneTimeMainIncome      // 400 "One-time income cannot be used as main income ..."
    | ValidationFailed       // 500, a schema validator refused the update

  /** The body of `GET /api/income/view-cycle`. */
  datatype ViewCycle = ViewCycle(
    cycleStart: Instant,
    cycleEnd: Instant,
    payCycle: string,
    remainingDays: int,
    totalIncome: int)

  // ---------------------------------------------------------------------
  // Collections of incomes

  predicate AllValid(s: seq<Income>) {
    forall k :: 0 <= k < |s| ==> ValidIncome(s[k])
  }

  predicate UniqueIds(s: seq<Income>) {
    forall j, k :: 0 <= j < k < |s| ==> s[j].id != s[k].id
  }

  /** No user has two main incomes. */
  predicate SingleMain(s: seq<Income>) {
    forall j, k :: 0 <= j < k < |s| && s[j].isMain && s[k].isMain ==> s[j].userId != s[k].userId
  }

  /** `Income.findOne({ _id: id, userId })`: the position of the income
      with that id, if it belongs to the user. */
  function FindOwned(s: seq<Income>, userId: Id, id: Id): (r: Option<nat>)
    ensures r.Some? ==> r.value < |s| && s[r.value].id == id && s[r.value].userId == userId
    ensures r.None? ==> forall k :: 0 <= k < |s| ==> !(s[k].id == id && s[k].userId == userId)
  {
    if |s| == 0 then None
    else if s[0].id == id && s[0].userId == userId then Some(0)
    else
      var r := FindOwned(s[1..], userId, id);
      if r.None? then None else Some(r.value + 1)
  }

  /** `Income.findOne({ userId, isMain: true })`. */
  function FindMain(s: seq<Income>, userId: Id): (r: Option<Income>)
    ensures r.Some? ==> r.value in s && r.value.userId == userId && r.value.isMain
    ensures r.None? ==> forall k :: 0 <= k < |s| ==> !(s[k].userId == userId && s[k].isMain)
  {
    if |s| == 0 then None
    else if s[0].userId == userId && s[0].isMain then Some(s[0])
    else FindMain(s[1..], userId)
  }

  /** `Income.find({ userId })`. */
  function OwnedBy(s: seq<Income>, userId: Id): (r: seq<Income>)
    ensures forall k :: 0 <= k < |r| ==> r[k].userId == userId && r[k] in s
    ensures forall k :: 0 <= k < |s| && s[k].userId == userId ==> s[k] in r
  {
    if |s| == 0 then []
    else (if s[0].userId == userId then [s[0]] else []) + OwnedBy(s[1..], userId)
  }

  /** `Income.updateMany({ userId, isMain: true, _id: { $ne: excludeId } },
      { $set: { isMain: false } })`; without an `excludeId` every main
      income of the user is demoted. */
  function Demoted(s: seq<Income>, userId: Id, excludeId: Option<Id>): (r: seq<Income>)
    ensures |r| == |s|
    ensures forall k :: 0 <= k < |s| ==> r[k] == s[k].(isMain := r[k].isMain)
    ensures forall k :: 0 <= k < |s| ==>
      (r[k].isMain <==> s[k].isMain && (s[k].userId != userId || excludeId == Some(s[k].id)))
  {
    seq(|s|, k requires 0 <= k < |s| =>
      if s[k].userId == userId && excludeId != Some(s[k].id) then s[k].(isMain := false) else s[k])
  }

  /** Demoting keeps every invariant of the collection. */
  lemma DemotedValid(s: seq<Income>, userId: Id, excludeId: Option<Id>)
    requires AllValid(s) && UniqueIds(s) && SingleMain(s)
    ensures var r := Demoted(s, userId, excludeId);
      AllValid(r) && UniqueIds(r) && SingleMain(r)
  {
    var r := Demoted(s, userId, excludeId);
    forall j, k | 0 <= j < k < |r| && r[j].isMain && r[k].isMain
      ensures r[j].userId != r[k].userId
    {
      assert s[j].isMain && s[k].isMain && r[j].userId == s[j].userId && r[k].userId == s[k].userId;
    }
  }

  /** After a demotion that spares income `id`, promoting it leaves it the
      user's only main income. */
  lemma PromoteAfterDemote(s: seq<Income>, userId: Id, id: Id, k: nat, x: Income)
    requires AllValid(s) && UniqueIds(s) && SingleMain(s)
    requires k < |s| && s[k].id == id && s[k].userId == userId
    requires x.id == id && x.userId == userId && ValidIncome(x)
    ensures var r := Demoted(s, userId, Some(id))[k := x];
      && AllValid(r) && UniqueIds(r) && SingleMain(r)
      && (x.isMain ==> forall j :: 0 <= j < |r| && j != k && r[j].userId == userId ==> !r[j].isMain)
  {
    var d := Demoted(s, userId, Some(id));
    DemotedValid(s, userId, Some(id));
    var r := d[k := x];
    forall j | 0 <= j < |r| && j != k && r[j].userId == userId
      ensures !r[j].isMain
    {
      assert s[j].id != id by {
        assert j < k || k < j;
      }
    }
    forall i, j | 0 <= i < j < |r| && r[i].isMain && r[j].isMain
      ensures r[i].userId != r[j].userId
    {
      if i != k && j != k {
        assert d[i].isMain && d[j].isMain;
      }
    }
    forall i, j | 0 <= i < j < |r| ensures r[i].id != r[j].id {
      assert d[i].id == s[i].id && d[j].id == s[j].id;
    }
  }

  // ---------------------------------------------------------------------
  // Total income of a cycle

  /** What one income of the user adds to the cycle: a one-time income its
      amount when its date is in the cycle, a recurring one its amount for
      every pay date counted in the cycle (a stored income always has one
      of the schema's cycles). */
  ghost function Contribution(cycleStart: Instant, cycleEnd: Instant): Income -> int {
    (i: Income) =>
      if i.payCycle == "one-time" then
        if IsDateInCycle(i.nextPayDate, cycleStart, cycleEnd) then i.amount else 0
      else if ValidIncome(i) then
        i.amount * LegacyCycle.IncomeOccurrences(i, DayOf(cycleStart), DayOf(cycleEnd))
      else 0
  }

  /** The sum of `f` over `s`, in order. */
  ghost function Sum(s: seq<Income>, f: Income -> int): int {
    if |s| == 0 then 0 else Sum(s[..|s| - 1], f) + f(s[|s| - 1])
  }

  /** The income `s` brings in the cycle. */
  ghost function TotalIncome(s: seq<Income>, cycleStart: Instant, cycleEnd: Instant): int {
    Sum(s, Contribution(cycleStart, cycleEnd))
  }

  /** One more element of a prefix adds its value. */
  lemma SumPrefixStep(s: seq<Income>, n: nat, f: Income -> int)
    requires n < |s|
    ensures Sum(s[..n + 1], f) == Sum(s[..n], f) + f(s[n])
  {
    assert s[..n + 1][..n] == s[..n];
  }

  lemma {:induction false} SumAppend(a: seq<Income>, b: seq<Income>, f: Income -> int)
    ensures Sum(a + b, f) == Sum(a, f) + Sum(b, f)
    decreases |b|
  {
    if |b| > 0 {
      var b' := b[..|b| - 1];
      assert (a + b)[..|a + b| - 1] == a + b';
      SumAppend(a, b', f);
    } else {
      assert a + b == a;
    }
  }

  lemma {:induction false} SumOrderFree(s: seq<Income>, t: seq<Income>, f: Income -> int)
    requires multiset(s) == multiset(t)
    ensures Sum(s, f) == Sum(t, f)
    decreases |s|
  {
    assert |t| == |s| by {
      assert |multiset(t)| == |t| && |multiset(s)| == |s|;
    }
    if |s| > 0 {
      var x := t[|t| - 1];
      var t' := t[..|t| - 1];
      assert Sum(t, f) == Sum(t', f) + f(x);
      assert x in s by {
        assert x in multiset(t);
      }
      var k :| 0 <= k < |s| && s[k] == x;
      var s' := s[..k] + s[k + 1..];
      RemoveLast(s, t, k);
      SumOrderFree(s', t', f);
      SumRemove(s, k, f);
    }
  }

  /** Taking the same element out of two permutations of each other
      leaves two permutations of each other. */
  lemma RemoveLast(s: seq<Income>, t: seq<Income>, k: nat)
    requires multiset(s) == multiset(t) && k < |s| && 0 < |t| && s[k] == t[|t| - 1]
    ensures multiset(s[..k] + s[k + 1..]) == multiset(t[..|t| - 1])
  {
    RemoveAt(s, k);
    assert t == t[..|t| - 1] + [t[|t| - 1]];
    assert multiset(t) == multiset(t[..|t| - 1]) + multiset{t[|t| - 1]};
  }

  /** Taking one element out of a sum takes out its term. */
  lemma SumRemove(s: seq<Income>, k: nat, f: Income -> int)
    requires k < |s|
    ensures Sum(s, f) == Sum(s[..k] + s[k + 1..], f) + f(s[k])
  {
    var a, x, b := s[..k], s[k], s[k + 1..];
    RemoveAt(s, k);
    assert Sum(a + b, f) == Sum(a, f) + Sum(b, f) by {
      SumAppend(a, b, f);
    }
    assert Sum(s, f) == Sum(a + [x], f) + Sum(b, f) by {
      SumAppend(a + [x], b, f);
    }
    assert Sum(a + [x], f) == Sum(a, f) + f(x) by {
      assert (a + [x])[..|a + [x]| - 1] == a;
    }
  }

  /** Removing the element at `k` removes one occurrence of it. */
  lemma RemoveAt(s: seq<Income>, k: nat)
    requires k < |s|
    ensures s == s[..k] + [s[k]] + s[k + 1..]
    ensures multiset(s[..k] + s[k + 1..]) == multiset(s) - multiset{s[k]}
  {
    assert s == s[..k] + s[k..];
    assert s[k..] == [s[k]] + s[k + 1..];
    assert multiset(s) == multiset(s[..k]) + multiset{s[k]} + multiset(s[k + 1..]);
  }

  /** The total of two runs of incomes is the sum of their totals. */
  lemma TotalIncomeAppend(a: seq<Income>, b: seq<Income>, cycleStart: Instant, cycleEnd: Instant)
    ensures TotalIncome(a + b, cycleStart, cycleEnd) == TotalIncome(a, cycleStart, cycleEnd) + TotalIncome(b, cycleStart, cycleEnd)
  {
    SumAppend(a, b, Contribution(cycleStart, cycleEnd));
  }

  /** The total does not depend on the order the incomes come back in,
      which the query leaves unspecified. */
  lemma TotalIncomeOrderFree(s: seq<Income>, t: seq<Income>, cycleStart: Instant, cycleEnd: Instant)
    requires multiset(s) == multiset(t)
    ensures TotalIncome(s, cycleStart, cycleEnd) == TotalIncome(t, cycleStart, cycleEnd)
  {
    SumOrderFree(s, t, Contribution(cycleStart, cycleEnd));
  }

  // ---------------------------------------------------------------------
  // The collection

  class IncomeStore {
    var incomes: seq<Income>

    predicate Valid()
      reads this
    {
      AllValid(incomes) && UniqueIds(incomes) && SingleMain(incomes)
    }

    constructor ()
      ensures Valid() && incomes == []
    {
      incomes := [];
    }

    /** `ensureSingleMainIncome(userId, excludeId)`. */
    method EnsureSingleMainIncome(userId: Id, excludeId: Option<Id>)
      requires Valid()
      modifies this
      ensures Valid()
      ensures incomes == Demoted(old(incomes), userId, excludeId)
    {
      DemotedValid(incomes, userId, excludeId);
      incomes := Demoted(incomes, userId, excludeId);
    }

    /** `POST /api/income`: `amount`, `payCycle` and `nextPayDate` must be
        truthy and `payCycle` in the enum; `isMain === true` first demotes
        the user's other incomes; a falsy `name` becomes `"Income"`. */
    method CreateIncome(userId: Id, body: IncomeFields, newId: Id) returns (r: Result<Income, IncomeError>)
      requires Valid()
      requires forall k :: 0 <= k < |incomes| ==> incomes[k].id != newId
      modifies this
      ensures Valid()
      ensures !TruthyNumber(body.amount) || !TruthyString(body.payCycle) || !body.nextPayDate.Val? ==>
        r == Failure(MissingIncomeFields) && incomes == old(incomes)
      ensures TruthyNumber(body.amount) && TruthyString(body.payCycle) && body.nextPayDate.Val?
              && !IsIncomePayCycle(body.payCycle.value) ==>
        r == Failure(InvalidIncomePayCycle) && incomes == old(incomes)
      ensures r.Success? <==> TruthyNumber(body.amount) && TruthyString(body.payCycle) && body.nextPayDate.Val?
                              && IsIncomePayCycle(body.payCycle.value)
      ensures r.Success? ==>
        && r.value == Income(newId, userId, Some(StringOr(body.name, DefaultName)), body.amount.value,
                             body.payCycle.value, body.nextPayDate.value, body.isMain == Val(true))
        && incomes == (if r.value.isMain then Demoted(old(incomes), userId, None) else old(incomes)) + [r.value]
    {
      if !TruthyNumber(body.amount) || !TruthyString(body.payCycle) || !body.nextPayDate.Val? {
        return Failure(MissingIncomeFields);
      }
      if !IsIncomePayCycle(body.payCycle.value) {
        return Failure(InvalidIncomePayCycle);
      }
      var isMain := body.isMain == Val(true);
      if isMain {
        EnsureSingleMainIncome(userId, None);
      }
      var data := IncomeFields(Val(StringOr(body.name, DefaultName)), body.amount, body.payCycle,
                               body.nextPayDate, Val(isMain));
      var income := CreateDocument(newId, userId, data).value;
      AppendValid(incomes, income);
      incomes := incomes + [income];
      return Success(income);
    }

    /** `POST /api/income/set-main/:id`: the user's own income `id` becomes
        the main one and every other income of the user stops being it. */
    method SetMainIncome(userId: Id, id: Id) returns (r: Result<Income, IncomeError>)
      requires Valid()
      modifies this
      ensures Valid()
      ensures FindOwned(old(incomes), userId, id).None? ==>
        r == Failure(IncomeNotFound) && incomes == old(incomes)
      ensures FindOwned(old(incomes), userId, id).Some? ==>
        var k := FindOwned(old(incomes), userId, id).value;
        && r == Success(old(incomes)[k].(isMain := true))
        && incomes == Demoted(old(incomes), userId, Some(id))[k := r.value]
    {
      var found := FindOwned(incomes, userId, id);
      if found.None? {
        return Failure(IncomeNotFound);
      }
      var k := found.value;
      var income := incomes[k].(isMain := true);
      PromoteAfterDemote(incomes, userId, id, k, income);
      EnsureSingleMainIncome(userId, Some(id));
      incomes := incomes[k := income];
      return Success(income);
    }

    /** `PUT /api/income/:id`: paths left out of the body keep their value;
        a `payCycle` outside the enum (`null` included) is refused before
        anything changes; `nextPayDate: null` becomes the epoch, as
        `new Date(null)` does; `isMain === true` demotes the user's other
        incomes before the update, whose validators may still refuse it. */
    method UpdateIncome(userId: Id, id: Id, body: IncomeFields) returns (r: Result<Income, IncomeError>)
      requires Valid()
      modifies this
      ensures Valid()
      ensures FindOwned(old(incomes), userId, id).None? ==>
        r == Failure(IncomeNotFound) && incomes == old(incomes)
      ensures FindOwned(old(incomes), userId, id).Some? && body.payCycle.Defined()
              && !(body.payCycle.Val? && IsIncomePayCycle(body.payCycle.value)) ==>
        r == Failure(InvalidIncomePayCycle) && incomes == old(incomes)
      ensures r.Failure? && r.error == ValidationFailed <==>
        FindOwned(old(incomes), userId, id).Some? && body.amount.Null?
        && (body.payCycle.Defined() ==> body.payCycle.Val? && IsIncomePayCycle(body.payCycle.value))
      ensures r.Success? ==>
        var k := FindOwned(old(incomes), userId, id).value;
        var demoted := if body.isMain == Val(true) then Demoted(old(incomes), userId, Some(id)) else old(incomes);
        && UpdateDocument(old(incomes)[k], body.(nextPayDate := EpochIfNull(body.nextPayDate))) == Some(r.value)
        && incomes == demoted[k := r.value]
      ensures r == Failure(ValidationFailed) ==>
        incomes == if body.isMain == Val(true) then Demoted(old(incomes), userId, Some(id)) else old(incomes)
    {
      var found := FindOwned(incomes, userId, id);
      if found.None? {
        return Failure(IncomeNotFound);
      }
      var k := found.value;
      if body.payCycle.Defined() && !(body.payCycle.Val? && IsIncomePayCycle(body.payCycle.value)) {
        return Failure(InvalidIncomePayCycle);
      }
      var updateData := body.(nextPayDate := EpochIfNull(body.nextPayDate));
      ghost var before := incomes;
      if body.isMain == Val(true) {
        EnsureSingleMainIncome(userId, Some(id));
      }
      assert incomes[k] == before[k];
      var updated := UpdateDocument(incomes[k], updateData);
      if updated.None? {
        return Failure(ValidationFailed);
      }
      var income := updated.value;
      UpdateValid(before, userId, id, k, income, body.isMain == Val(true));
      incomes := incomes[k := income];
      return Success(income);
    }

    /** `DELETE /api/income/:id`: the user's own income `id` is removed and
        every other income stays as it was. */
    method DeleteIncome(userId: Id, id: Id) returns (r: Result<Income, IncomeError>)
      requires Valid()
      modifies this
      ensures Valid()
      ensures FindOwned(old(incomes), userId, id).None? ==>
        r == Failure(IncomeNotFound) && incomes == old(incomes)
      ensures FindOwned(old(incomes), userId, id).Some? ==>
        var k := FindOwned(old(incomes), userId, id).value;
        && r == Success(old(incomes)[k])
        && incomes == old(incomes)[..k] + old(incomes)[k + 1..]
    {
      var found := FindOwned(incomes, userId, id);
      if found.None? {
        return Failure(IncomeNotFound);
      }
      var k := found.value;
      r := Success(incomes[k]);
      RemoveValid(incomes, k);
      incomes := incomes[..k] + incomes[k + 1..];
    }

    /** `calculateTotalIncome(userId, cycleStart, cycleEnd)`. */
    method CalculateTotalIncome(userId: Id, cycleStart: Instant, cycleEnd: Instant) returns (totalIncome: int)
      requires Valid()
      ensures totalIncome == TotalIncome(OwnedBy(incomes, userId), cycleStart, cycleEnd)
    {
      var mine := OwnedBy(incomes, userId);
      OwnedByValid(incomes, userId);
      totalIncome := 0;
      for n := 0 to |mine|
        invariant totalIncome == TotalIncome(mine[..n], cycleStart, cycleEnd)
      {
        var amount := IncomeInCycle(mine[n], cycleStart, cycleEnd);
        SumPrefixStep(mine, n, Contribution(cycleStart, cycleEnd));
        totalIncome := totalIncome + amount;
      }
      assert mine[..|mine|] == mine;
    }

    /** `GET /api/income/view-cycle`: the cycle of the user's main income,
        the days left in it and the income counted in it. */
    method GetViewCycle(userId: Id, today: Instant) returns (r: Result<ViewCycle, IncomeError>)
      requires Valid()
      ensures FindMain(incomes, userId).None? ==> r == Failure(NoMainIncome)
      ensures FindMain(incomes, userId).Some? && FindMain(incomes, userId).value.payCycle == "one-time" ==>
        r == Failure(OneTimeMainIncome)
      ensures r.Success? <==> FindMain(incomes, userId).Some? && FindMain(incomes, userId).value.payCycle != "one-time"
      ensures r.Success? ==>
        var main := FindMain(incomes, userId).value;
        var w := CalculateCycle(Some(main));
        && w.Success?
        && r.value.cycleStart == w.value.cycleStart && r.value.cycleEnd == w.value.cycleEnd
        && r.value.payCycle == main.payCycle
        && r.value.remainingDays == DayOf(r.value.cycleEnd) - DayOf(today)
        && r.value.totalIncome == TotalIncome(OwnedBy(incomes, userId), r.value.cycleStart, r.value.cycleEnd)
    {
      var mainIncome := FindMain(incomes, userId);
      if mainIncome.None? {
        return Failure(NoMainIncome);
      }
      var main := mainIncome.value;
      if main.payCycle == "one-time" {
        return Failure(OneTimeMainIncome);
      }
      assert ValidIncome(main);
      var w := CalculateCycle(mainIncome).value;
      var remainingDays := CalculateRemainingDays(w.cycleEnd, today);
      var totalIncome := CalculateTotalIncome(userId, w.cycleStart, w.cycleEnd);
      return Success(ViewCycle(w.cycleStart, w.cycleEnd, main.payCycle, remainingDays, totalIncome));
    }
  }

  /** The body of the loop of `calculateTotalIncome`: what one income adds. */
  method IncomeInCycle(income: Income, cycleStart: Instant, cycleEnd: Instant) returns (amount: int)
    requires ValidIncome(income)
    ensures amount == Contribution(cycleStart, cycleEnd)(income)
  {
    if income.payCycle == "one-time" {
      amount := if IsDateInCycle(income.nextPayDate, cycleStart, cycleEnd) then income.amount else 0;
    } else {
      var occurrences := LegacyCycle.GetIncomeOccurrencesInCycle(income, cycleStart, cycleEnd);
      amount := income.amount * occurrences;
    }
  }

  /** The incomes of one user are valid when all incomes are. */
  lemma OwnedByValid(s: seq<Income>, userId: Id)
    requires AllValid(s)
    ensures AllValid(OwnedBy(s, userId))
  {
    var mine := OwnedBy(s, userId);
    forall k | 0 <= k < |mine| ensures ValidIncome(mine[k]) {
      var x := mine[k];
      assert x in s;
    }
  }

  /** `new Date(nextPayDate)` of an update body: `null` is the epoch. */
  function EpochIfNull(d: Js<Instant>): (r: Js<Instant>)
    ensures d.Null? ==> r == Val(0)
    ensures !d.Null? ==> r == d
  {
    if d.Null? then Val(0) else d
  }

  /** A fresh income, main only if no other income of its user is, keeps
      the collection's invariants. */
  lemma AppendValid(s: seq<Income>, x: Income)
    requires AllValid(s) && UniqueIds(s) && SingleMain(s) && ValidIncome(x)
    requires forall k :: 0 <= k < |s| ==> s[k].id != x.id
    requires x.isMain ==> forall k :: 0 <= k < |s| && s[k].userId == x.userId ==> !s[k].isMain
    ensures var r := s + [x]; AllValid(r) && UniqueIds(r) && SingleMain(r)
  {
  }

  /** Removing an income keeps the collection's invariants. */
  lemma RemoveValid(s: seq<Income>, k: nat)
    requires AllValid(s) && UniqueIds(s) && SingleMain(s) && k < |s|
    ensures var r := s[..k] + s[k + 1..]; AllValid(r) && UniqueIds(r) && SingleMain(r)
  {
    var r := s[..k] + s[k + 1..];
    assert forall i :: 0 <= i < |r| ==> r[i] == s[if i < k then i else i + 1];
  }

  /** The state `UpdateIncome` leaves keeps the collection's invariants. */
  lemma UpdateValid(s: seq<Income>, userId: Id, id: Id, k: nat, x: Income, demote: bool)
    requires AllValid(s) && UniqueIds(s) && SingleMain(s)
    requires k < |s| && s[k].id == id && s[k].userId == userId
    requires x.id == id && x.userId == userId && ValidIncome(x)
    requires x.isMain ==> demote || s[k].isMain
    ensures var d := if demote then Demoted(s, userId, Some(id)) else s;
      var r := d[k := x];
      AllValid(r) && UniqueIds(r) && SingleMain(r)
  {
    if demote {
      PromoteAfterDemote(s, userId, id, k, x);
    } else {
      var r := s[k := x];
      forall i, j | 0 <= i < j < |r| && r[i].isMain && r[j].isMain
        ensures r[i].userId != r[j].userId
      {
        assert s[i].isMain && s[j].isMain;
      }
      forall i, j | 0 <= i < j < |r| ensures r[i].id != r[j].id {
      }
    }
  }
}
