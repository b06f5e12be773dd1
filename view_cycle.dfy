/** `validateViewCycle` of `src/utils/viewCycleValidation.js`: the cycle a
    user views the budget by, with the one day field that cycle needs.
    The checks run in a fixed order and the first that fails decides the
    error. */
module ViewCycleValidation {
  import opened Wrappers

  /** A day argument as the validator sees it: a number, or a value of
      some other type (a string, an object, a boolean). */
  datatype Arg = Num(n: int) | NonNumber

  datatype ViewCycleError =
    | ViewCycleRequired            // "viewCycle is required"
    | ViewCycleNotAllowed          // "viewCycle must be: weekly, fortnightly, or monthly"
    | WeekDayRequired              // "weekDay is required when viewCycle is 'weekly'"
    | WeekDayOutOfRange            // "weekDay must be a number between 0 and 6 ..."
    | FortnightStartDayRequired    // "fortnightStartDay is required when viewCycle is 'fortnightly'"
    | FortnightStartDayOutOfRange  // "fortnightStartDay must be a number between 0 and 6 ..."
    | MonthDateRequired            // "monthDate is required when viewCycle is 'monthly'"
    | MonthDateOutOfRange          // "monthDate must be a number between 1 and 28"

  /** `{ weekDay, fortnightStartDay, monthDate }`, `null` being `None`. */
  datatype CleanedData = CleanedData(weekDay: Option<int>, fortnightStartDay: Option<int>, monthDate: Option<int>)

  /** `{ isValid, error, cleanedData }`. */
  datatype Validation = Validation(isValid: bool, error: Option<ViewCycleError>, cleanedData: Option<CleanedData>)

  /** The cycles the validator accepts; `"yearly"` is not one of them. */
  predicate IsViewCycle(s: string) {
    s == "weekly" || s == "fortnightly" || s == "monthly"
  }

  /** A day argument that is a number from `lo` to `hi`. */
  predicate InRange(x: Js<Arg>, lo: int, hi: int) {
    x.Val? && x.value.Num? && lo <= x.value.n <= hi
  }

  function Invalid(e: ViewCycleError): Validation {
    Validation(false, Some(e), None)
  }

  /** The two checks of one day field: present (neither `null` nor
      `undefined`), then a number in range. */
  function DayField(x: Js<Arg>, lo: int, hi: int, required: ViewCycleError, outOfRange: ViewCycleError)
    : (r: Result<int, ViewCycleError>)
    ensures x.Nullish() ==> r == Failure(required)
    ensures !x.Nullish() && !InRange(x, lo, hi) ==> r == Failure(outOfRange)
    ensures r.Success? <==> InRange(x, lo, hi)
    ensures r.Success? ==> r.value == x.value.n && lo <= r.value <= hi
  {
    if x.Nullish() then Failure(required)
    else if !x.value.Num? || x.value.n < lo || x.value.n > hi then Failure(outOfRange)
    else Success(x.value.n)
  }

  /** `validateViewCycle(viewCycle, weekDay, fortnightStartDay, monthDate)`. */
  function ValidateViewCycle(viewCycle: Js<string>, weekDay: Js<Arg>, fortnightStartDay: Js<Arg>, monthDate: Js<Arg>)
    : (r: Validation)
    ensures r.isValid <==> r.error.None?
    ensures r.isValid <==> r.cleanedData.Some?
    ensures !TruthyString(viewCycle) ==> r == Invalid(ViewCycleRequired)
    ensures TruthyString(viewCycle) && !IsViewCycle(viewCycle.value) ==> r == Invalid(ViewCycleNotAllowed)
    ensures viewCycle == Val("weekly") ==>
      && (weekDay.Nullish() ==> r == Invalid(WeekDayRequired))
      && (!weekDay.Nullish() && !InRange(weekDay, 0, 6) ==> r == Invalid(WeekDayOutOfRange))
      && (InRange(weekDay, 0, 6) ==> r == Validation(true, None, Some(CleanedData(Some(weekDay.value.n), None, None))))
    ensures viewCycle == Val("fortnightly") ==>
      && (fortnightStartDay.Nullish() ==> r == Invalid(FortnightStartDayRequired))
      && (!fortnightStartDay.Nullish() && !InRange(fortnightStartDay, 0, 6) ==> r == Invalid(FortnightStartDayOutOfRange))
      && (InRange(fortnightStartDay, 0, 6) ==>
            r == Validation(true, None, Some(CleanedData(None, Some(fortnightStartDay.value.n), None))))
    ensures viewCycle == Val("monthly") ==>
      && (monthDate.Nullish() ==> r == Invalid(MonthDateRequired))
      && (!monthDate.Nullish() && !InRange(monthDate, 1, 28) ==> r == Invalid(MonthDateOutOfRange))
      && (InRange(monthDate, 1, 28) ==> r == Validation(true, None, Some(CleanedData(None, None, Some(monthDate.value.n)))))
  {
    if !TruthyString(viewCycle) then
      Invalid(ViewCycleRequired)
    else if !IsViewCycle(viewCycle.value) then
      Invalid(ViewCycleNotAllowed)
    else
      var day :=
        if viewCycle.value == "weekly" then DayField(weekDay, 0, 6, WeekDayRequired, WeekDayOutOfRange)
        else if viewCycle.value == "fortnightly" then
          DayField(fortnightStartDay, 0, 6, FortnightStartDayRequired, FortnightStartDayOutOfRange)
        else DayField(monthDate, 1, 28, MonthDateRequired, MonthDateOutOfRange);
      if day.Failure? then
        Invalid(day.error)
      else
        var cleaned :=
          if viewCycle.value == "weekly" then CleanedData(Some(day.value), None, None)
          else if viewCycle.value == "fortnightly" then CleanedData(None, Some(day.value), None)
          else CleanedData(None, None, Some(day.value));
        Validation(true, None, Some(cleaned))
  }

  /** The validator accepts exactly an allowed cycle whose own day field
      is in range, and then keeps exactly that one field: the other two
      are `null`. */
  lemma ValidExactly(viewCycle: Js<string>, weekDay: Js<Arg>, fortnightStartDay: Js<Arg>, monthDate: Js<Arg>)
    ensures var r := ValidateViewCycle(viewCycle, weekDay, fortnightStartDay, monthDate);
      r.isValid <==>
        && viewCycle.Val? && IsViewCycle(viewCycle.value)
        && (viewCycle.value == "weekly" ==> InRange(weekDay, 0, 6))
        && (viewCycle.value == "fortnightly" ==> InRange(fortnightStartDay, 0, 6))
        && (viewCycle.value == "monthly" ==> InRange(monthDate, 1, 28))
    ensures var r := ValidateViewCycle(viewCycle, weekDay, fortnightStartDay, monthDate);
      r.isValid ==>
        var c := r.cleanedData.value;
        && (c.weekDay.Some? <==> viewCycle.value == "weekly")
        && (c.fortnightStartDay.Some? <==> viewCycle.value == "fortnightly")
        && (c.monthDate.Some? <==> viewCycle.value == "monthly")
  {
  }

  /** The day kept is within the range of its field. */
  lemma CleanedInRange(viewCycle: Js<string>, weekDay: Js<Arg>, fortnightStartDay: Js<Arg>, monthDate: Js<Arg>)
    ensures var r := ValidateViewCycle(viewCycle, weekDay, fortnightStartDay, monthDate);
      r.isValid ==>
        var c := r.cleanedData.value;
        && (c.weekDay.Some? ==> 0 <= c.weekDay.value <= 6)
        && (c.fortnightStartDay.Some? ==> 0 <= c.fortnightStartDay.value <= 6)
        && (c.monthDate.Some? ==> 1 <= c.monthDate.value <= 28)
  {
  }

  /** The fields a cycle does not use play no part: a weekly cycle with an
      out-of-range `monthDate` is as valid as one without. */
  lemma IrrelevantFieldsIgnored(viewCycle: Js<string>, weekDay: Js<Arg>, fortnightStartDay: Js<Arg>, monthDate: Js<Arg>,
                                fortnightStartDay': Js<Arg>, monthDate': Js<Arg>, weekDay': Js<Arg>)
    ensures viewCycle == Val("weekly") ==>
      ValidateViewCycle(viewCycle, weekDay, fortnightStartDay, monthDate)
        == ValidateViewCycle(viewCycle, weekDay, fortnightStartDay', monthDate')
    ensures viewCycle == Val("fortnightly") ==>
      ValidateViewCycle(viewCycle, weekDay, fortnightStartDay, monthDate)
        == ValidateViewCycle(viewCycle, weekDay', fortnightStartDay, monthDate')
    ensures viewCycle == Val("monthly") ==>
      ValidateViewCycle(viewCycle, weekDay, fortnightStartDay, monthDate)
        == ValidateViewCycle(viewCycle, weekDay', fortnightStartDay', monthDate)
  {
    if viewCycle == Val("weekly") {
      assert ValidateViewCycle(viewCycle, weekDay, fortnightStartDay, monthDate)
        == ValidateViewCycle(viewCycle, weekDay, fortnightStartDay', monthDate');
    } else if viewCycle == Val("fortnightly") {
      assert ValidateViewCycle(viewCycle, weekDay, fortnightStartDay, monthDate)
        == ValidateViewCycle(viewCycle, weekDay', fortnightStartDay, monthDate');
    }
  }

  /** A monthly cycle on the 1st is valid, whatever the other fields hold. */
  lemma MonthlyOnTheFirst(weekDay: Js<Arg>, fortnightStartDay: Js<Arg>)
    ensures ValidateViewCycle(Val("monthly"), weekDay, fortnightStartDay, Val(Num(1)))
      == Validation(true, None, Some(CleanedData(None, None, Some(1))))
  {
  }

  /** The user schema allows `"yearly"`, the validator does not. */
  lemma YearlyRejected(weekDay: Js<Arg>, fortnightStartDay: Js<Arg>, monthDate: Js<Arg>)
    ensures ValidateViewCycle(Val("yearly"), weekDay, fortnightStartDay, monthDate) == Invalid(ViewCycleNotAllowed)
  {
  }
}
