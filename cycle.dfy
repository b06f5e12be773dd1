/** The budgeting window of `src/utils/cycle.js`: the cycle that starts on
    the main income's next pay date, the days left in it, and the test
    whether a date falls inside it. "Today" is a parameter. */
module Cycle {
  import opened Wrappers
  import opened Dates
  import opened IncomeModel

  /** `{ cycleStart, cycleEnd }`: midnight of the first day and
      23:59:59.999 of the last day. */
  datatype CycleWindow = CycleWindow(cycleStart: Instant, cycleEnd: Instant)

  datatype CycleError =
    | InvalidMainIncome                 // "Invalid main income: missing payCycle or nextPayDate"
    | InvalidPayCycle(payCycle: string) // "Invalid payCycle: ..."

  /** `calculateCycle(mainIncome)`. A stored `nextPayDate` is a Date and so
      never falsy; a missing income or an empty `payCycle` is refused. The
      last day is 7, 14 or 1 days or one calendar month after the first. */
  function CalculateCycle(mainIncome: Option<Income>): (r: Result<CycleWindow, CycleError>)
    ensures (mainIncome.None? || mainIncome.value.payCycle == "") ==> r == Failure(InvalidMainIncome)
    ensures mainIncome.Some? && mainIncome.value.payCycle != "" && !IsIncomePayCycle(mainIncome.value.payCycle) ==>
      r == Failure(InvalidPayCycle(mainIncome.value.payCycle))
    ensures r.Success? <==> mainIncome.Some? && IsIncomePayCycle(mainIncome.value.payCycle)
    ensures r.Success? ==> r.value.cycleStart == StartOfDay(DayOf(mainIncome.value.nextPayDate))
    ensures r.Success? ==> r.value.cycleEnd == EndOfDay(DayOf(r.value.cycleEnd))
    ensures r.Success? ==>
      var p, first, last := mainIncome.value.payCycle, DayOf(mainIncome.value.nextPayDate), DayOf(r.value.cycleEnd);
      && (p == "weekly" ==> last == first + 7)
      && (p == "biweekly" ==> last == first + 14)
      && (p == "monthly" ==> last == AddMonths(first, 1))
      && (p == "one-time" ==> last == first + 1)
  {
    if mainIncome.None? || mainIncome.value.payCycle == "" then
      Failure(InvalidMainIncome)
    else
      var first := DayOf(mainIncome.value.nextPayDate);
      var last :=
        match mainIncome.value.payCycle
        case "weekly" => Some(AddDays(first, 7))
        case "biweekly" => Some(AddDays(first, 14))
        case "monthly" => Some(AddMonths(first, 1))
        case "one-time" => Some(AddDays(first, 1))
        case _ => None;
      if last.None? then
        Failure(InvalidPayCycle(mainIncome.value.payCycle))
      else
        DayOfNormalised(last.value);
        Success(CycleWindow(StartOfDay(first), EndOfDay(last.value)))
  }

  /** The window's last day is 1 to 31 days after its first, and the next
      pay date itself lies inside the window. */
  lemma CycleEndAfterStart(mainIncome: Option<Income>)
    requires CalculateCycle(mainIncome).Success?
    ensures var w := CalculateCycle(mainIncome).value;
      DayOf(w.cycleStart) + 1 <= DayOf(w.cycleEnd) <= DayOf(w.cycleStart) + 31
    ensures var w := CalculateCycle(mainIncome).value;
      IsDateInCycle(mainIncome.value.nextPayDate, w.cycleStart, w.cycleEnd)
  {
    var first := DayOf(mainIncome.value.nextPayDate);
    DayOfNormalised(first);
    AddOneMonth(first);
  }

  /** `calculateCycle` accepts neither `"fortnightly"` nor `"yearly"`, the
      names the newer engine uses. */
  lemma NewerFrequenciesRefused(i: Income)
    requires i.payCycle == "fortnightly" || i.payCycle == "yearly"
    ensures CalculateCycle(Some(i)) == Failure(InvalidPayCycle(i.payCycle))
  {
  }

  /** `Math.ceil(a / b)` for a positive divisor. */
  function CeilDiv(a: int, b: int): (q: int)
    requires b > 0
    ensures (q - 1) * b < a <= q * b
  {
    -((-a) / b)
  }

  /** `calculateRemainingDays(cycleEnd)` with today's instant given: the
      days from today's midnight to the last day's midnight, negative once
      the window has passed. */
  function CalculateRemainingDays(cycleEnd: Instant, today: Instant): (r: int)
    ensures r == DayOf(cycleEnd) - DayOf(today)
  {
    var diffTime := StartOfDay(DayOf(cycleEnd)) - StartOfDay(DayOf(today));
    CeilDiv(diffTime, MsPerDay)
  }

  /** From any time of the 20th of March to a window ending on the 15th of
      April of the same year there are 26 days left. */
  lemma RemainingDaysExample(year: int, endTime: int, todayTime: int)
    requires 0 <= endTime < MsPerDay && 0 <= todayTime < MsPerDay
    ensures CalculateRemainingDays(StartOfDay(MakeDay(year, 3, 15)) + endTime,
                                   StartOfDay(MakeDay(year, 2, 20)) + todayTime) == 26
  {
    MakeDayNextMonth(year, 2, 15);
    SameMonthDates(year, 2, 20, 15);
    DayOfTimeOfDay(MakeDay(year, 3, 15), endTime);
    DayOfTimeOfDay(MakeDay(year, 2, 20), todayTime);
  }

  /** An instant at some time of day `d` falls on day `d`. */
  lemma DayOfTimeOfDay(d: Day, time: int)
    requires 0 <= time < MsPerDay
    ensures DayOf(StartOfDay(d) + time) == d
  {
  }

  /** `isDateInCycle(date, cycleStart, cycleEnd)`: the date's midnight is
      at or after the start's midnight and before 23:59:59.999 of the end's
      day, which makes both ends inclusive at the level of days; only the
      calendar days of the three instants matter. */
  function IsDateInCycle(date: Instant, cycleStart: Instant, cycleEnd: Instant): (r: bool)
    ensures r <==> DayOf(cycleStart) <= DayOf(date) <= DayOf(cycleEnd)
  {
    MidnightComparisons(DayOf(date), DayOf(cycleStart));
    MidnightComparisons(DayOf(date), DayOf(cycleEnd));
    var checkDate := StartOfDay(DayOf(date));
    checkDate >= StartOfDay(DayOf(cycleStart)) && checkDate < EndOfDay(DayOf(cycleEnd))
  }
}
