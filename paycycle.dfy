/** The pay-date engine of `src/utils/paycycle.js`: interval arithmetic
    over the frequencies `weekly`, `fortnightly`, `monthly` and `yearly`,
    and the generator of the pay dates of one income that fall in a date
    range.

    Dates enter as instants and are normalised the way the source does it
    (`setHours(0, 0, 0, 0)` for pay dates and the range start,
    `setHours(23, 59, 59, 999)` for the range end), so every comparison is
    one between calendar days (`Dates.MidnightComparisons`); the generated
    pay dates are returned as their calendar days. */
module PayCycle {
  import opened Wrappers
  import opened Dates
  import Sorting
  import opened Steps

  datatype IntervalUnit = DaysUnit | MonthsUnit | YearsUnit

  /** `{ type: 'days' | 'months' | 'years', value }` */
  datatype Interval = Interval(unit: IntervalUnit, value: int)

  datatype PayCycleError =
    | InvalidFrequency(frequency: string)   // "Invalid frequency: ..."
    | LastPayDateMustBeNull                 // "lastPayDate must be null when isFirstPayDay is true"
    | LastPayDateRequired                   // "lastPayDate is required when isFirstPayDay is false"

  predicate IsFrequency(f: string) {
    f == "weekly" || f == "fortnightly" || f == "monthly" || f == "yearly"
  }

  // ---------------------------------------------------------------------
  // Interval arithmetic

  /** The intervals handed out below: a positive number of days, or exactly
      one month or one year. */
  predicate ValidInterval(iv: Interval) {
    if iv.unit == DaysUnit then iv.value > 0 else iv.value == 1
  }

  /** The step of a frequency; any other string, `"biweekly"` included, is refused. */
  function GetCycleInterval(frequency: string): (r: Result<Interval, PayCycleError>)
    ensures r.Success? <==> IsFrequency(frequency)
    ensures r.Failure? ==> r.error == InvalidFrequency(frequency)
    ensures r.Success? ==> ValidInterval(r.value)
    ensures r.Success? && r.value.unit == DaysUnit <==> frequency == "weekly" || frequency == "fortnightly"
    ensures r.Success? && r.value.unit == DaysUnit ==> r.value.value == if frequency == "weekly" then 7 else 14
    ensures r.Success? && r.value.unit != DaysUnit ==> r.value.value == 1
    ensures r.Success? && r.value.unit == MonthsUnit <==> frequency == "monthly"
  {
    match frequency
    case "weekly" => Success(Interval(DaysUnit, 7))
    case "fortnightly" => Success(Interval(DaysUnit, 14))
    case "monthly" => Success(Interval(MonthsUnit, 1))
    case "yearly" => Success(Interval(YearsUnit, 1))
    case _ => Failure(InvalidFrequency(frequency))
  }

  /** A date moved forward by an interval (`setDate`, `setMonth` or
      `setFullYear` on the current field plus the value). */
  function StepForward(date: Day, iv: Interval): (r: Day)
    requires ValidInterval(iv)
    ensures date < r
    ensures iv.unit == DaysUnit ==> r == date + iv.value
  {
    AddOneMonth(date);
    AddOneYear(date);
    match iv.unit
    case DaysUnit => AddDays(date, iv.value)
    case MonthsUnit => AddMonths(date, iv.value)
    case YearsUnit => AddYears(date, iv.value)
  }

  /** A date moved back by an interval. */
  function StepBack(date: Day, iv: Interval): (r: Day)
    requires ValidInterval(iv)
    ensures r < date
    ensures iv.unit == DaysUnit ==> r == date - iv.value
  {
    SubtractOneMonth(date);
    SubtractOneYear(date);
    match iv.unit
    case DaysUnit => AddDays(date, -iv.value)
    case MonthsUnit => AddMonths(date, -iv.value)
    case YearsUnit => AddYears(date, -iv.value)
  }

  /** `addInterval(date, frequency)`: one frequency step later. */
  function AddInterval(date: Day, frequency: string): (r: Result<Day, PayCycleError>)
    ensures r.Success? <==> IsFrequency(frequency)
    ensures r.Failure? ==> r.error == InvalidFrequency(frequency)
    ensures r.Success? ==> date < r.value
  {
    match GetCycleInterval(frequency)
    case Failure(e) => Failure(e)
    case Success(interval) => Success(StepForward(date, interval))
  }

  /** `subtractInterval(date, frequency)`: one frequency step earlier. */
  function SubtractInterval(date: Day, frequency: string): (r: Result<Day, PayCycleError>)
    ensures r.Success? <==> IsFrequency(frequency)
    ensures r.Failure? ==> r.error == InvalidFrequency(frequency)
    ensures r.Success? ==> r.value < date
  {
    match GetCycleInterval(frequency)
    case Failure(e) => Failure(e)
    case Success(interval) => Success(StepBack(date, interval))
  }

  /** What each frequency adds to a date. */
  lemma AddIntervalByFrequency(date: Day)
    ensures AddInterval(date, "weekly") == Success(date + 7)
    ensures AddInterval(date, "fortnightly") == Success(date + 14)
    ensures AddInterval(date, "monthly") == Success(AddMonths(date, 1))
    ensures AddInterval(date, "yearly") == Success(AddYears(date, 1))
    ensures AddInterval(date, "biweekly") == Failure(InvalidFrequency("biweekly"))
  {
    assert GetCycleInterval("weekly") == Success(Interval(DaysUnit, 7));
    assert GetCycleInterval("fortnightly") == Success(Interval(DaysUnit, 14));
    assert GetCycleInterval("monthly") == Success(Interval(MonthsUnit, 1));
    assert GetCycleInterval("yearly") == Success(Interval(YearsUnit, 1));
    assert GetCycleInterval("biweekly").Failure?;
  }

  /** What each frequency takes from a date. */
  lemma SubtractIntervalByFrequency(date: Day)
    ensures SubtractInterval(date, "weekly") == Success(date - 7)
    ensures SubtractInterval(date, "fortnightly") == Success(date - 14)
    ensures SubtractInterval(date, "monthly") == Success(AddMonths(date, -1))
    ensures SubtractInterval(date, "yearly") == Success(AddYears(date, -1))
    ensures SubtractInterval(date, "biweekly") == Failure(InvalidFrequency("biweekly"))
  {
    assert GetCycleInterval("weekly") == Success(Interval(DaysUnit, 7));
    assert GetCycleInterval("fortnightly") == Success(Interval(DaysUnit, 14));
    assert GetCycleInterval("monthly") == Success(Interval(MonthsUnit, 1));
    assert GetCycleInterval("yearly") == Success(Interval(YearsUnit, 1));
    assert GetCycleInterval("biweekly").Failure?;
  }

  /** For the two day-based frequencies a step back undoes a step forward
      and the other way round. */
  lemma DayStepsInvert(date: Day, frequency: string)
    requires frequency == "weekly" || frequency == "fortnightly"
    ensures SubtractInterval(AddInterval(date, frequency).value, frequency).value == date
    ensures AddInterval(SubtractInterval(date, frequency).value, frequency).value == date
  {
  }

  /** For `monthly` they need not: from the 31st of January a step forward
      and a step back land on the 2nd or 3rd of February. */
  lemma MonthlyStepsDoNotInvert(year: int)
    ensures SubtractInterval(AddInterval(MakeDay(year, 0, 31), "monthly").value, "monthly").value
            != MakeDay(year, 0, 31)
  {
    AddIntervalByFrequency(MakeDay(year, 0, 31));
    SubtractIntervalByFrequency(AddMonths(MakeDay(year, 0, 31), 1));
    MonthStepsDoNotCancel(year);
  }

  /** Every valid step moves the date by at least 7 and at most 366 days. */
  lemma StepBounds(date: Day, frequency: string)
    requires IsFrequency(frequency)
    ensures date + 7 <= AddInterval(date, frequency).value <= date + 366
    ensures date - 366 <= SubtractInterval(date, frequency).value <= date - 7
  {
    AddOneMonth(date);
    SubtractOneMonth(date);
    AddOneYear(date);
    SubtractOneYear(date);
  }

  // ---------------------------------------------------------------------
  // Schedules through a last pay date

  /** The step forward of an interval, as a function value. */
  function Forth(iv: Interval): (step: Day -> Day)
    requires ValidInterval(iv)
    ensures Grows(step)
  {
    d => StepForward(d, iv)
  }

  /** The step back of an interval, as a function value. */
  function Back(iv: Interval): (step: Day -> Day)
    requires ValidInterval(iv)
    ensures Shrinks(step)
  {
    d => StepBack(d, iv)
  }

  /** `addInterval` and `subtractInterval` are the steps of the
      frequency's interval. */
  lemma StepsAreIntervalSteps(d: Day, f: string)
    requires IsFrequency(f)
    ensures AddInterval(d, f) == Success(Forth(GetCycleInterval(f).value)(d))
    ensures SubtractInterval(d, f) == Success(Back(GetCycleInterval(f).value)(d))
  {
  }

  /** A day reachable from `lastPay` by repeated steps back or forth. */
  ghost predicate OnSchedule(lastPay: Day, back: Day -> Day, forth: Day -> Day, d: Day) {
    exists k: nat :: d == Iterate(back, lastPay, k) || d == Iterate(forth, lastPay, k)
  }

  predicate StrictlyIncreasing(s: seq<Day>) {
    forall i, j :: 0 <= i < j < |s| ==> s[i] < s[j]
  }

  /** Strictly ascending dates in `[first, last]`, each on the schedule
      through `lastPay`, and every scheduled date of the range among them. */
  ghost predicate IsSchedule(lastPay: Day, back: Day -> Day, forth: Day -> Day, first: Day, last: Day, dates: seq<Day>) {
    && StrictlyIncreasing(dates)
    && (forall i :: 0 <= i < |dates| ==> first <= dates[i] <= last && OnSchedule(lastPay, back, forth, dates[i]))
    && (forall k: nat :: first <= Iterate(back, lastPay, k) <= last ==> Iterate(back, lastPay, k) in dates)
    && (forall k: nat :: first <= Iterate(forth, lastPay, k) <= last ==> Iterate(forth, lastPay, k) in dates)
  }

  /** The schedule of an interval. */
  ghost predicate IsRecurringSchedule(lastPay: Day, iv: Interval, first: Day, last: Day, dates: seq<Day>)
    requires ValidInterval(iv)
  {
    IsSchedule(lastPay, Back(iv), Forth(iv), first, last, dates)
  }

  // ---------------------------------------------------------------------
  // Sequences of days

  /** `dates.filter(d => d >= start && d <= end)` */
  function KeepInRange(s: seq<Day>, first: Day, last: Day): (r: seq<Day>)
    ensures forall x :: x in r <==> x in s && first <= x <= last
    ensures StrictlyIncreasing(s) ==> StrictlyIncreasing(r)
  {
    if s == [] then []
    else
      var rest := KeepInRange(s[1..], first, last);
      assert forall x :: x in s <==> x == s[0] || x in s[1..];
      if first <= s[0] <= last then
        assert forall x :: x in [s[0]] + rest <==> x == s[0] || x in rest;
        assert StrictlyIncreasing(s) ==> forall x :: x in rest ==> s[0] < x by {
          if StrictlyIncreasing(s) {
            forall x | x in rest ensures s[0] < x {
              var i :| 0 <= i < |s[1..]| && s[1..][i] == x;
              assert s[i + 1] == x;
            }
          }
        }
        assert StrictlyIncreasing(s) ==> StrictlyIncreasing([s[0]] + rest) by {
          if StrictlyIncreasing(s) {
            assert StrictlyIncreasing(s[1..]);
            forall i, j | 0 <= i < j < |[s[0]] + rest| ensures ([s[0]] + rest)[i] < ([s[0]] + rest)[j] {
              if i == 0 {
                assert ([s[0]] + rest)[j] == rest[j - 1];
                assert rest[j - 1] in rest;
              }
            }
          }
        }
        [s[0]] + rest
      else rest
  }

  ghost predicate Distinct(s: seq<Day>) {
    forall i, j :: 0 <= i < j < |s| ==> s[i] != s[j]
  }

  lemma {:induction false} DistinctMultiplicity(s: seq<Day>, x: Day)
    requires Distinct(s)
    ensures multiset(s)[x] <= 1
  {
    if s != [] {
      assert s == [s[0]] + s[1..];
      assert Distinct(s[1..]);
      DistinctMultiplicity(s[1..], x);
      if x == s[0] {
        assert x !in s[1..];
      }
    }
  }

  lemma RepeatedMultiplicity(s: seq<Day>, i: int, j: int)
    requires 0 <= i < j < |s| && s[i] == s[j]
    ensures multiset(s)[s[i]] >= 2
  {
    assert s == s[..i] + [s[i]] + s[i + 1..j] + [s[j]] + s[j + 1..];
  }

  /** A sorted permutation of a sequence without repetitions is strictly increasing. */
  lemma SortedDistinctIncreasing(s: seq<Day>, sorted: seq<Day>)
    requires Distinct(s)
    requires multiset(sorted) == multiset(s)
    requires Sorting.Ascending(sorted)
    ensures StrictlyIncreasing(sorted)
  {
    forall i, j | 0 <= i < j < |sorted| ensures sorted[i] < sorted[j] {
      if sorted[i] == sorted[j] {
        RepeatedMultiplicity(sorted, i, j);
        DistinctMultiplicity(s, sorted[i]);
        assert false;
      }
    }
  }

  /** Two strictly increasing sequences with the same elements are equal. */
  lemma {:induction false} IncreasingUnique(a: seq<Day>, b: seq<Day>)
    requires StrictlyIncreasing(a) && StrictlyIncreasing(b)
    requires forall x :: x in a <==> x in b
    ensures a == b
  {
    assert a == [] <==> b == [] by {
      assert a != [] ==> a[0] in a;
      assert b != [] ==> b[0] in b;
    }
    if a != [] && b != [] {
      assert a[0] in a && b[0] in b;
      assert a[0] == b[0];
      forall x ensures x in a[1..] <==> x in b[1..] {
        assert x in a[1..] <==> x in a && x != a[0] by {
          assert a == [a[0]] + a[1..];
          if x in a[1..] {
            var k :| 0 <= k < |a[1..]| && a[1..][k] == x;
            assert a[k + 1] == x;
          }
        }
        assert x in b[1..] <==> x in b && x != b[0] by {
          assert b == [b[0]] + b[1..];
          if x in b[1..] {
            var k :| 0 <= k < |b[1..]| && b[1..][k] == x;
            assert b[k + 1] == x;
          }
        }
      }
      IncreasingUnique(a[1..], b[1..]);
      assert a == [a[0]] + a[1..] && b == [b[0]] + b[1..];
    }
  }

  // ---------------------------------------------------------------------
  // The generator

  /** `new Date(x)`: a missing value gives an invalid Date (every comparison
      with it is false), `null` gives the epoch. */
  function JsDate(x: Js<Instant>): (r: Option<Instant>)
    ensures x.Val? ==> r == Some(x.value)
    ensures x.Null? ==> r == Some(0)
    ensures x.Undefined? ==> r.None?
  {
    match x
    case Undefined => None
    case Null => Some(0)
    case Val(t) => Some(t)
  }

  /** The two one-date cases: the date's day, if the date is a valid Date
      whose day lies in `[first, last]`, and nothing otherwise. */
  function SingleDateInRange(date: Js<Instant>, first: Day, last: Day): (r: seq<Day>)
    ensures |r| <= 1
    ensures |r| == 1 <==> JsDate(date).Some? && first <= DayOf(JsDate(date).value) <= last
    ensures |r| == 1 ==> r[0] == DayOf(JsDate(date).value)
  {
    match JsDate(date)
    case None => []
    case Some(t) => if first <= DayOf(t) <= last then [DayOf(t)] else []
  }

  /** The dates of the backward walk from `lastPay`, the date it stopped
      at being before `first`. */
  ghost predicate IsBackwardWalk(lastPay: Day, back: Day -> Day, first: Day, dates: seq<Day>) {
    dates == Walk(back, lastPay, 0, |dates|) && Iterate(back, lastPay, |dates|) < first
  }

  /** The dates of the forward walk from one step after `lastPay`, the date
      it stopped at being after `last`. */
  ghost predicate IsForwardWalk(lastPay: Day, forth: Day -> Day, last: Day, dates: seq<Day>) {
    dates == Walk(forth, lastPay, 1, |dates| + 1) && last < Iterate(forth, lastPay, |dates| + 1)
  }

  /** The first loop: from `lastPay` back one `subtractInterval` step at a
      time while the date is not before `first`. */
  method WalkBackward(lastPay: Day, first: Day, back: Day -> Day) returns (payDates: seq<Day>)
    requires Shrinks(back)
    ensures IsBackwardWalk(lastPay, back, first, payDates)
  {
    payDates := [];
    var currentDate := lastPay;
    while currentDate >= first
      invariant payDates == Walk(back, lastPay, 0, |payDates|)
      invariant currentDate == Iterate(back, lastPay, |payDates|)
      decreases currentDate - first
    {
      payDates := payDates + [currentDate];
      currentDate := back(currentDate);
    }
  }

  /** The second loop: from one `addInterval` step after `lastPay` forward
      while the date is not after `last`. */
  method WalkForward(lastPay: Day, last: Day, forth: Day -> Day) returns (payDates: seq<Day>)
    requires Grows(forth)
    ensures IsForwardWalk(lastPay, forth, last, payDates)
  {
    payDates := [];
    var currentDate := forth(lastPay);
    while currentDate <= last
      invariant payDates == Walk(forth, lastPay, 1, |payDates| + 1)
      invariant currentDate == Iterate(forth, lastPay, |payDates| + 1)
      decreases last - currentDate
    {
      payDates := payDates + [currentDate];
      currentDate := forth(currentDate);
    }
  }

  /** The normal recurring case: the dates of the backward walk, then those
      of the forward walk, sorted and cut to the range. Both walks step with
      the frequency's interval (`StepsAreIntervalSteps`). With an invalid
      frequency every path through the walks reaches a `subtractInterval`
      or `addInterval` call, and that call throws, so no list is returned;
      the model refuses the frequency before walking. */
  method WalkFromLastPayDate(lastPay: Day, f: string, first: Day, last: Day)
    returns (r: Result<seq<Day>, PayCycleError>)
    ensures r.Success? <==> IsFrequency(f)
    ensures r.Failure? ==> r.error == InvalidFrequency(f)
    ensures r.Success? ==> IsRecurringSchedule(lastPay, GetCycleInterval(f).value, first, last, r.value)
  {
    var interval := GetCycleInterval(f);
    if interval.Failure? {
      return Failure(interval.error);
    }
    var back, forth := Back(interval.value), Forth(interval.value);
    var backward := WalkBackward(lastPay, first, back);
    var forward := WalkForward(lastPay, last, forth);
    var sorted := Sorting.SortAscending(backward + forward);
    WalksAreSchedule(lastPay, back, forth, first, last, backward, forward, sorted);
    return Success(KeepInRange(sorted, first, last));
  }

  /** The two walks, sorted and filtered, give the schedule of the range. */
  lemma WalksAreSchedule(lastPay: Day, back: Day -> Day, forth: Day -> Day, first: Day, last: Day,
                         backward: seq<Day>, forward: seq<Day>, sorted: seq<Day>)
    requires Shrinks(back) && Grows(forth)
    requires IsBackwardWalk(lastPay, back, first, backward)
    requires IsForwardWalk(lastPay, forth, last, forward)
    requires Sorting.Ascending(sorted) && multiset(sorted) == multiset(backward + forward)
    ensures IsSchedule(lastPay, back, forth, first, last, KeepInRange(sorted, first, last))
  {
    var result := KeepInRange(sorted, first, last);
    Sorting.SameElements(sorted, backward + forward);
    assert StrictlyIncreasing(result) by {
      WalksDistinct(lastPay, back, forth, first, last, backward, forward);
      SortedDistinctIncreasing(backward + forward, sorted);
    }
    assert forall i :: 0 <= i < |result| ==> first <= result[i] <= last && OnSchedule(lastPay, back, forth, result[i]) by {
      WalksOnSchedule(lastPay, back, forth, first, last, backward, forward);
      forall i | 0 <= i < |result| ensures first <= result[i] <= last && OnSchedule(lastPay, back, forth, result[i]) {
        assert result[i] in result;
      }
    }
    assert forall k: nat :: first <= Iterate(back, lastPay, k) <= last ==> Iterate(back, lastPay, k) in result by {
      BackwardWalkComplete(lastPay, back, first, backward);
    }
    assert forall k: nat :: first <= Iterate(forth, lastPay, k) <= last ==> Iterate(forth, lastPay, k) in result by {
      ForwardWalkComplete(lastPay, back, forth, first, last, backward, forward);
    }
  }

  /** The backward dates are at most `lastPay` and strictly decreasing, the
      forward ones after it and strictly increasing, so none repeats. */
  lemma WalksDistinct(lastPay: Day, back: Day -> Day, forth: Day -> Day, first: Day, last: Day,
                      backward: seq<Day>, forward: seq<Day>)
    requires Shrinks(back) && Grows(forth)
    requires IsBackwardWalk(lastPay, back, first, backward)
    requires IsForwardWalk(lastPay, forth, last, forward)
    ensures Distinct(backward + forward)
  {
    var all, n := backward + forward, |backward|;
    forall i, j | 0 <= i < j < |all| ensures all[i] != all[j] {
      if j < n {
        assert all[i] == backward[i] && all[j] == backward[j];
        IterateShrinks(back, lastPay, i, j);
      } else if n <= i {
        assert all[i] == forward[i - n] && all[j] == forward[j - n];
        IterateGrows(forth, lastPay, i - n + 1, j - n + 1);
      } else {
        assert all[i] == backward[i] && all[j] == forward[j - n];
        if 0 < i {
          IterateShrinks(back, lastPay, 0, i);
        }
        IterateGrows(forth, lastPay, 0, j - n + 1);
      }
    }
  }

  /** Every walked date is on the schedule. */
  lemma WalksOnSchedule(lastPay: Day, back: Day -> Day, forth: Day -> Day, first: Day, last: Day,
                        backward: seq<Day>, forward: seq<Day>)
    requires IsBackwardWalk(lastPay, back, first, backward)
    requires IsForwardWalk(lastPay, forth, last, forward)
    ensures forall x :: x in backward + forward ==> OnSchedule(lastPay, back, forth, x)
  {
    forall x | x in backward + forward ensures OnSchedule(lastPay, back, forth, x) {
      if x in backward {
        var i :| 0 <= i < |backward| && backward[i] == x;
        assert x == Iterate(back, lastPay, i);
      } else {
        var i :| 0 <= i < |forward| && forward[i] == x;
        assert x == Iterate(forth, lastPay, i + 1);
      }
    }
  }

  /** Every backward date from `first` on was walked. */
  lemma BackwardWalkComplete(lastPay: Day, back: Day -> Day, first: Day, backward: seq<Day>)
    requires Shrinks(back)
    requires IsBackwardWalk(lastPay, back, first, backward)
    ensures forall k: nat :: first <= Iterate(back, lastPay, k) ==> Iterate(back, lastPay, k) in backward
  {
    forall k: nat | first <= Iterate(back, lastPay, k)
      ensures Iterate(back, lastPay, k) in backward
    {
      if |backward| < k {
        IterateShrinks(back, lastPay, |backward|, k);
      }
      assert k < |backward|;
      assert backward[k] == Iterate(back, lastPay, k);
    }
  }

  /** Every forward date in the range was walked; `lastPay` itself, the
      date zero steps forward, was walked backward when it is in range. */
  lemma ForwardWalkComplete(lastPay: Day, back: Day -> Day, forth: Day -> Day, first: Day, last: Day,
                            backward: seq<Day>, forward: seq<Day>)
    requires Grows(forth)
    requires IsBackwardWalk(lastPay, back, first, backward)
    requires IsForwardWalk(lastPay, forth, last, forward)
    ensures forall k: nat :: first <= Iterate(forth, lastPay, k) <= last ==> Iterate(forth, lastPay, k) in backward + forward
  {
    forall k: nat | first <= Iterate(forth, lastPay, k) <= last
      ensures Iterate(forth, lastPay, k) in backward + forward
    {
      if k == 0 {
        assert |backward| > 0;
        assert backward[0] == Iterate(back, lastPay, 0);
        assert (backward + forward)[0] == backward[0];
      } else {
        if |forward| < k - 1 {
          IterateGrows(forth, lastPay, |forward| + 1, k);
        }
        assert k - 1 < |forward|;
        assert forward[k - 1] == Iterate(forth, lastPay, k);
        assert (backward + forward)[|backward| + k - 1] == forward[k - 1];
      }
    }
  }

  /** An income as the generator reads it (`type` is `kind` here). */
  datatype PayIncome = PayIncome(
    kind: string,
    oneTimeDate: Js<Instant>,
    isFirstPayDay: bool,
    lastPayDate: Js<Instant>,
    nextPayDate: Js<Instant>,
    frequency: string)

  /** `generatePayDatesInRange(income, rangeStart, rangeEnd)` */
  method GeneratePayDatesInRange(income: PayIncome, rangeStart: Instant, rangeEnd: Instant)
    returns (r: Result<seq<Day>, PayCycleError>)
    ensures income.kind == "one-time" ==>
      r == Success(SingleDateInRange(income.oneTimeDate, DayOf(rangeStart), DayOf(rangeEnd)))
    ensures income.kind == "recurring" && income.isFirstPayDay ==>
      r == if !income.lastPayDate.Null? then Failure(LastPayDateMustBeNull)
           else Success(SingleDateInRange(income.nextPayDate, DayOf(rangeStart), DayOf(rangeEnd)))
    ensures income.kind == "recurring" && !income.isFirstPayDay && !income.lastPayDate.Val? ==>
      r == Failure(LastPayDateRequired)
    ensures income.kind == "recurring" && !income.isFirstPayDay && income.lastPayDate.Val? ==>
      && (r.Success? <==> IsFrequency(income.frequency))
      && (r.Failure? ==> r.error == InvalidFrequency(income.frequency))
      && (r.Success? ==> IsRecurringSchedule(DayOf(income.lastPayDate.value), GetCycleInterval(income.frequency).value,
                                             DayOf(rangeStart), DayOf(rangeEnd), r.value))
    ensures income.kind != "one-time" && income.kind != "recurring" ==> r == Success([])
  {
    var first, last := DayOf(rangeStart), DayOf(rangeEnd);
    if income.kind == "one-time" {
      return Success(SingleDateInRange(income.oneTimeDate, first, last));
    }
    if income.kind == "recurring" {
      if income.isFirstPayDay {
        if !income.lastPayDate.Null? {
          return Failure(LastPayDateMustBeNull);
        }
        return Success(SingleDateInRange(income.nextPayDate, first, last));
      }
      if !income.lastPayDate.Val? {
        return Failure(LastPayDateRequired);
      }
      r := WalkFromLastPayDate(DayOf(income.lastPayDate.value), income.frequency, first, last);
      return;
    }
    return Success([]);
  }

  // ---------------------------------------------------------------------
  // A worked schedule

  const Weekly := Interval(DaysUnit, 7)

  lemma WeeklyStep(d: Day)
    ensures Back(Weekly)(d) == d + -7 && Forth(Weekly)(d) == d + 7
  {
  }

  /** A seven-day schedule through `d`, over the days `d - 9` to `d + 21`. */
  lemma SevenDayScheduleAround(d: Day, back: Day -> Day, forth: Day -> Day, dates: seq<Day>)
    requires forall x :: back(x) == x + -7 && forth(x) == x + 7
    requires IsSchedule(d, back, forth, d - 9, d + 21, dates)
    ensures dates == [d - 7, d, d + 7, d + 14, d + 21]
  {
    SevenDayDatesExpected(d, back, forth, dates);
    SevenDayExpectedDates(d, back, forth, dates);
    IncreasingUnique(dates, [d - 7, d, d + 7, d + 14, d + 21]);
  }

  lemma SevenDayDatesExpected(d: Day, back: Day -> Day, forth: Day -> Day, dates: seq<Day>)
    requires forall x :: back(x) == x + -7 && forth(x) == x + 7
    requires forall i :: 0 <= i < |dates| ==> d - 9 <= dates[i] <= d + 21 && OnSchedule(d, back, forth, dates[i])
    ensures forall x :: x in dates ==> x in [d - 7, d, d + 7, d + 14, d + 21]
  {
    forall x | x in dates ensures x in [d - 7, d, d + 7, d + 14, d + 21] {
      var i :| 0 <= i < |dates| && dates[i] == x;
      var k: nat :| x == Iterate(back, d, k) || x == Iterate(forth, d, k);
      IterateFixedStep(back, -7, d, k);
      IterateFixedStep(forth, 7, d, k);
      assert k <= 3;
    }
  }

  lemma SevenDayExpectedDates(d: Day, back: Day -> Day, forth: Day -> Day, dates: seq<Day>)
    requires forall x :: back(x) == x + -7 && forth(x) == x + 7
    requires forall k: nat :: d - 9 <= Iterate(back, d, k) <= d + 21 ==> Iterate(back, d, k) in dates
    requires forall k: nat :: d - 9 <= Iterate(forth, d, k) <= d + 21 ==> Iterate(forth, d, k) in dates
    ensures forall x :: x in [d - 7, d, d + 7, d + 14, d + 21] ==> x in dates
  {
    IterateFixedStep(back, -7, d, 1);
    IterateFixedStep(back, -7, d, 0);
    IterateFixedStep(forth, 7, d, 1);
    IterateFixedStep(forth, 7, d, 2);
    IterateFixedStep(forth, 7, d, 3);
  }

  /** Weekly pay last paid on day `d`, asked for the days `d - 9` to
      `d + 21`: five dates, one week apart, the last one on the range end. */
  lemma WeeklyWalkAround(d: Day, dates: seq<Day>)
    requires IsRecurringSchedule(d, Weekly, d - 9, d + 21, dates)
    ensures dates == [d - 7, d, d + 7, d + 14, d + 21]
  {
    forall x ensures Back(Weekly)(x) == x + -7 && Forth(Weekly)(x) == x + 7 {
      WeeklyStep(x);
    }
    SevenDayScheduleAround(d, Back(Weekly), Forth(Weekly), dates);
  }

  /** Weekly pay last paid on the 10th of January, asked for the whole of
      January (the 1st to the 31st, whatever the year): the 3rd, 10th,
      17th, 24th and 31st. */
  lemma WeeklyWalkOverJanuary(year: int, dates: seq<Day>)
    requires IsRecurringSchedule(MakeDay(year, 0, 10), Weekly, MakeDay(year, 0, 1), MakeDay(year, 0, 31), dates)
    ensures dates == [MakeDay(year, 0, 3), MakeDay(year, 0, 10), MakeDay(year, 0, 17),
                      MakeDay(year, 0, 24), MakeDay(year, 0, 31)]
  {
    SameMonthDates(year, 0, 10, 1);
    SameMonthDates(year, 0, 10, 3);
    SameMonthDates(year, 0, 10, 17);
    SameMonthDates(year, 0, 10, 24);
    SameMonthDates(year, 0, 10, 31);
    WeeklyWalkAround(MakeDay(year, 0, 10), dates);
  }
}
