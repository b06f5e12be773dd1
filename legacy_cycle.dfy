/** The older pay-date engine inside `src/controllers/incomeController.js`:
    interval arithmetic over `weekly`, `biweekly` and `monthly` (any other
    value leaves the date unchanged), and the count of an income's pay
    dates in a cycle, found by pivoting from its `nextPayDate`. */
module LegacyCycle {
  import opened Dates
  import opened Steps
  import opened IncomeModel
  import opened Wrappers
  import PayCycle
  import Cycle

  /** The cycles the older engine can step with. */
  predicate IsLegacyCycle(p: string) {
    p == "weekly" || p == "biweekly" || p == "monthly"
  }

  // ---------------------------------------------------------------------
  // Interval arithmetic

  /** `addInterval(date, payCycle)`: the `default` branch returns the date
      unchanged. */
  function AddInterval(date: Day, payCycle: string): (r: Day)
    ensures IsLegacyCycle(payCycle) ==> date < r
    ensures !IsLegacyCycle(payCycle) ==> r == date
    ensures payCycle == "weekly" ==> r == date + 7
    ensures payCycle == "biweekly" ==> r == date + 14
  {
    AddOneMonth(date);
    match payCycle
    case "weekly" => AddDays(date, 7)
    case "biweekly" => AddDays(date, 14)
    case "monthly" => AddMonths(date, 1)
    case _ => date
  }

  /** `subtractInterval(date, payCycle)`, with the same `default`. */
  function SubtractInterval(date: Day, payCycle: string): (r: Day)
    ensures IsLegacyCycle(payCycle) ==> r < date
    ensures !IsLegacyCycle(payCycle) ==> r == date
    ensures payCycle == "weekly" ==> r == date - 7
    ensures payCycle == "biweekly" ==> r == date - 14
  {
    SubtractOneMonth(date);
    match payCycle
    case "weekly" => AddDays(date, -7)
    case "biweekly" => AddDays(date, -14)
    case "monthly" => AddMonths(date, -1)
    case _ => date
  }

  /** The two engines step alike where their vocabularies meet: `weekly`
      and `monthly` are the same in both, the older `biweekly` is the
      newer `fortnightly`, and each ignores or refuses the other's word. */
  lemma LegacyAgreesWithPayCycle(date: Day)
    ensures AddInterval(date, "weekly") == PayCycle.AddInterval(date, "weekly").value
    ensures AddInterval(date, "biweekly") == PayCycle.AddInterval(date, "fortnightly").value
    ensures AddInterval(date, "monthly") == PayCycle.AddInterval(date, "monthly").value
    ensures SubtractInterval(date, "weekly") == PayCycle.SubtractInterval(date, "weekly").value
    ensures SubtractInterval(date, "biweekly") == PayCycle.SubtractInterval(date, "fortnightly").value
    ensures SubtractInterval(date, "monthly") == PayCycle.SubtractInterval(date, "monthly").value
    ensures AddInterval(date, "fortnightly") == date && AddInterval(date, "yearly") == date
    ensures PayCycle.AddInterval(date, "biweekly").Failure?
  {
    PayCycle.AddIntervalByFrequency(date);
    PayCycle.SubtractIntervalByFrequency(date);
  }

  /** For `weekly` and `biweekly` the two steps undo each other. */
  lemma LegacyDayStepsInvert(date: Day, payCycle: string)
    requires payCycle == "weekly" || payCycle == "biweekly"
    ensures SubtractInterval(AddInterval(date, payCycle), payCycle) == date
    ensures AddInterval(SubtractInterval(date, payCycle), payCycle) == date
  {
  }

  /** The step forward of a cycle, as a function value. */
  function Forth(payCycle: string): (step: Day -> Day)
    requires IsLegacyCycle(payCycle)
    ensures Grows(step)
  {
    d => AddInterval(d, payCycle)
  }

  /** The step back of a cycle, as a function value. */
  function Back(payCycle: string): (step: Day -> Day)
    requires IsLegacyCycle(payCycle)
    ensures Shrinks(step)
  {
    d => SubtractInterval(d, payCycle)
  }

  /** A step back and then forward never lands earlier than it started. */
  lemma BackThenForth(payCycle: string, x: Day)
    requires IsLegacyCycle(payCycle)
    ensures x <= Forth(payCycle)(Back(payCycle)(x))
  {
    if payCycle == "monthly" {
      MonthBackThenForward(x);
    }
  }

  // ---------------------------------------------------------------------
  // The three cursor loops, as functions of their start

  /** How many forward steps from `d` reach a day not before `first`. */
  ghost function StepsBelow(d: Day, first: Day, forth: Day -> Day): (k: nat)
    requires Grows(forth)
    ensures first <= Iterate(forth, d, k)
    ensures forall j: nat :: j < k ==> Iterate(forth, d, j) < first
    decreases first - d
  {
    if d >= first then 0
    else
      var k := StepsBelow(forth(d), first, forth);
      IterateAdd(forth, d, 1, k);
      forall j: nat | 0 < j <= k ensures Iterate(forth, d, j) < first {
        IterateAdd(forth, d, 1, j - 1);
      }
      k + 1
  }

  /** How many backward steps from `d` reach a day not after `last`. */
  ghost function StepsAbove(d: Day, last: Day, back: Day -> Day): (k: nat)
    requires Shrinks(back)
    ensures Iterate(back, d, k) <= last
    ensures forall j: nat :: j < k ==> last < Iterate(back, d, j)
    decreases d - last
  {
    if d <= last then 0
    else
      var k := StepsAbove(back(d), last, back);
      IterateAdd(back, d, 1, k);
      forall j: nat | 0 < j <= k ensures last < Iterate(back, d, j) {
        IterateAdd(back, d, 1, j - 1);
      }
      k + 1
  }

  /** How many consecutive forward steps from `d` stay at or before `last`. */
  ghost function StepsWithin(d: Day, last: Day, forth: Day -> Day): (n: nat)
    requires Grows(forth)
    ensures forall j: nat :: j < n ==> Iterate(forth, d, j) <= last
    ensures last < Iterate(forth, d, n)
    decreases last - d
  {
    if d > last then 0
    else
      var n := StepsWithin(forth(d), last, forth);
      IterateAdd(forth, d, 1, n);
      forall j: nat | 0 < j <= n ensures Iterate(forth, d, j) <= last {
        IterateAdd(forth, d, 1, j - 1);
      }
      n + 1
  }

  lemma StepsBelowUnique(d: Day, first: Day, forth: Day -> Day, k: nat)
    requires Grows(forth)
    requires first <= Iterate(forth, d, k)
    requires forall j: nat :: j < k ==> Iterate(forth, d, j) < first
    ensures k == StepsBelow(d, first, forth)
  {
    var m := StepsBelow(d, first, forth);
    assert !(k < m) && !(m < k);
  }

  lemma StepsAboveUnique(d: Day, last: Day, back: Day -> Day, k: nat)
    requires Shrinks(back)
    requires Iterate(back, d, k) <= last
    requires forall j: nat :: j < k ==> last < Iterate(back, d, j)
    ensures k == StepsAbove(d, last, back)
  {
    var m := StepsAbove(d, last, back);
    assert !(k < m) && !(m < k);
  }

  lemma StepsWithinUnique(d: Day, last: Day, forth: Day -> Day, n: nat)
    requires Grows(forth)
    requires forall j: nat :: j < n ==> Iterate(forth, d, j) <= last
    requires last < Iterate(forth, d, n)
    ensures n == StepsWithin(d, last, forth)
  {
    var m := StepsWithin(d, last, forth);
    assert !(n < m) && !(m < n);
  }

  /** The count the loops arrive at from `next`: advance to the window;
      if that overshoots it, go back from `next` to the window's end and
      advance to its start again; then count the steps inside. */
  ghost function Occurrences(next: Day, first: Day, last: Day, back: Day -> Day, forth: Day -> Day): nat
    requires Grows(forth) && Shrinks(back)
  {
    var up := Iterate(forth, next, StepsBelow(next, first, forth));
    var pivot :=
      if up > last then
        var down := Iterate(back, next, StepsAbove(next, last, back));
        Iterate(forth, down, StepsBelow(down, first, forth))
      else up;
    StepsWithin(pivot, last, forth)
  }

  /** A cursor loop of `getIncomeOccurrencesInCycle`: step forward while
      the cursor's midnight is before `start`, midnight of day `first`. */
  method AdvanceTo(d: Day, first: Day, start: Instant, forth: Day -> Day) returns (r: Day)
    requires Grows(forth) && start == StartOfDay(first)
    ensures first <= r
    ensures r == Iterate(forth, d, StepsBelow(d, first, forth))
  {
    r := d;
    ghost var k: nat := 0;
    while StartOfDay(r) < start
      invariant r == Iterate(forth, d, k)
      invariant forall j: nat :: j < k ==> Iterate(forth, d, j) < first
      decreases first - r
    {
      r := forth(r);
      k := k + 1;
    }
    StepsBelowUnique(d, first, forth, k);
  }

  /** The backward loop: step back while the cursor's midnight is after
      `end`, 23:59:59.999 of day `last`. */
  method RetreatTo(d: Day, last: Day, end: Instant, back: Day -> Day) returns (r: Day)
    requires Shrinks(back) && end == EndOfDay(last)
    ensures r <= last
    ensures r == Iterate(back, d, StepsAbove(d, last, back))
  {
    r := d;
    ghost var k: nat := 0;
    while StartOfDay(r) > end
      invariant r == Iterate(back, d, k)
      invariant forall j: nat :: j < k ==> last < Iterate(back, d, j)
      decreases r - last
    {
      r := back(r);
      k := k + 1;
    }
    StepsAboveUnique(d, last, back, k);
  }

  /** The collecting loop: push every date from `pivot` on while its
      midnight is in `[start, end)`, that is while it is not after `last`. */
  method Collect(pivot: Day, first: Day, last: Day, start: Instant, end: Instant, forth: Day -> Day)
    returns (occurrences: seq<Day>)
    requires Grows(forth) && start == StartOfDay(first) && end == EndOfDay(last) && first <= pivot
    ensures occurrences == Walk(forth, pivot, 0, StepsWithin(pivot, last, forth))
  {
    var currentDate := pivot;
    occurrences := [];
    while StartOfDay(currentDate) >= start && StartOfDay(currentDate) < end
      invariant first <= currentDate
      invariant currentDate == Iterate(forth, pivot, |occurrences|)
      invariant occurrences == Walk(forth, pivot, 0, |occurrences|)
      invariant forall j: nat :: j < |occurrences| ==> Iterate(forth, pivot, j) <= last
      decreases last - currentDate
    {
      occurrences := occurrences + [currentDate];
      currentDate := forth(currentDate);
    }
    StepsWithinUnique(pivot, last, forth, |occurrences|);
  }

  /** The loops of `getIncomeOccurrencesInCycle` over calendar days: advance
      from `next` to the window; if that overshoots it, go back from `next`
      and advance again; then collect. The count is the number collected. */
  method CountOccurrences(next: Day, first: Day, last: Day, back: Day -> Day, forth: Day -> Day)
    returns (count: nat)
    requires Grows(forth) && Shrinks(back)
    ensures count == Occurrences(next, first, last, back, forth)
  {
    var start, end := StartOfDay(first), EndOfDay(last);
    var currentDate := AdvanceTo(next, first, start, forth);
    if StartOfDay(currentDate) > end {
      currentDate := RetreatTo(next, last, end, back);
      currentDate := AdvanceTo(currentDate, first, start, forth);
    }
    var occurrences := Collect(currentDate, first, last, start, end, forth);
    count := |occurrences|;
  }

  // ---------------------------------------------------------------------
  // What the count is

  /** When `next` is not after the window, the counted pay dates are
      exactly the forward steps from `next` that fall in the window: a
      run of consecutive steps, starting where the window starts. */
  lemma OccurrencesFromAnchor(next: Day, first: Day, last: Day, back: Day -> Day, forth: Day -> Day)
    requires Grows(forth) && Shrinks(back) && next <= last
    ensures var a, n := StepsBelow(next, first, forth), Occurrences(next, first, last, back, forth);
      forall k: nat :: first <= Iterate(forth, next, k) <= last <==> a <= k < a + n
  {
    var a := StepsBelow(next, first, forth);
    var up := Iterate(forth, next, a);
    assert StepsAbove(next, last, back) == 0 by {
      StepsAboveUnique(next, last, back, 0);
    }
    var n := StepsWithin(up, last, forth);
    assert Occurrences(next, first, last, back, forth) == n by {
      if up > last {
        assert StepsBelow(next, first, forth) == a;
      }
    }
    forall k: nat ensures first <= Iterate(forth, next, k) <= last <==> a <= k < a + n {
      if k < a {
      } else {
        IterateAdd(forth, next, a, k - a);
        if a + n <= k {
          IterateAdd(forth, next, a, n);
          if a + n < k {
            IterateGrows(forth, next, a + n, k);
          }
        } else if a < k {
          IterateGrows(forth, next, a, k);
        }
      }
    }
  }

  /** When `next` is after the window, at most one pay date is counted:
      one exactly when some backward step from `next` lands in the window. */
  lemma OccurrencesAfterWindow(next: Day, first: Day, last: Day, back: Day -> Day, forth: Day -> Day)
    requires Grows(forth) && Shrinks(back) && last < next
    requires forall x :: x <= forth(back(x))
    ensures Occurrences(next, first, last, back, forth)
            == if exists j: nat :: first <= Iterate(back, next, j) <= last then 1 else 0
  {
    var a := StepsBelow(next, first, forth);
    var up := Iterate(forth, next, a);
    assert up > last by {
      if a > 0 {
        IterateGrows(forth, next, 0, a);
      }
    }
    var r := StepsAbove(next, last, back);
    var down := Iterate(back, next, r);
    assert r > 0;
    var prev := Iterate(back, next, r - 1);
    assert last < prev && down == back(prev);
    assert last < forth(down);
    var b := StepsBelow(down, first, forth);
    var pivot := Iterate(forth, down, b);
    if first <= down {
      assert b == 0 by {
        StepsBelowUnique(down, first, forth, 0);
      }
      assert StepsWithin(pivot, last, forth) == 1 by {
        StepsWithinUnique(pivot, last, forth, 1);
      }
      assert first <= Iterate(back, next, r) <= last;
    } else {
      assert b > 0;
      assert last < pivot by {
        assert Iterate(forth, down, 1) == forth(down);
        if b > 1 {
          IterateGrows(forth, down, 1, b);
        }
      }
      assert StepsWithin(pivot, last, forth) == 0 by {
        StepsWithinUnique(pivot, last, forth, 0);
      }
      forall j: nat ensures !(first <= Iterate(back, next, j) <= last) {
        if r < j {
          IterateShrinks(back, next, r, j);
        }
      }
    }
  }

  // ---------------------------------------------------------------------
  // getIncomeOccurrencesInCycle

  /** The number of pay dates of `income` counted in the window of
      days `first..last`; none for a one-time income. */
  ghost function IncomeOccurrences(income: Income, first: Day, last: Day): nat
    requires ValidIncome(income)
  {
    if income.payCycle == "one-time" then 0
    else Occurrences(DayOf(income.nextPayDate), first, last, Back(income.payCycle), Forth(income.payCycle))
  }

  /** `getIncomeOccurrencesInCycle(income, cycleStart, cycleEnd)`. A stored
      `payCycle` is one of the schema's four values; with any other value
      the loops could not end, since the steps would leave the date alone. */
  method GetIncomeOccurrencesInCycle(income: Income, cycleStart: Instant, cycleEnd: Instant) returns (count: nat)
    requires ValidIncome(income)
    ensures income.payCycle == "one-time" ==> count == 0
    ensures count == IncomeOccurrences(income, DayOf(cycleStart), DayOf(cycleEnd))
  {
    if income.payCycle == "one-time" {
      return 0;
    }
    count := CountOccurrences(DayOf(income.nextPayDate), DayOf(cycleStart), DayOf(cycleEnd),
                              Back(income.payCycle), Forth(income.payCycle));
  }

  /** For `weekly` (`c` = 7) and `biweekly` (`c` = 14) with `next` before
      the window, the counted pay dates are exactly the days `next + c * k`,
      over all integers `k`, that fall in the window. */
  lemma FixedStepCountBeforeWindow(next: Day, first: Day, last: Day, payCycle: string, c: int)
    requires (payCycle == "weekly" && c == 7) || (payCycle == "biweekly" && c == 14)
    requires next < first
    ensures var a, n := StepsBelow(next, first, Forth(payCycle)),
                        Occurrences(next, first, last, Back(payCycle), Forth(payCycle));
      forall k: int :: first <= next + c * k <= last <==> a <= k < a + n
  {
    FixedSteps(payCycle, c);
    FixedStepCount(next, first, last, Back(payCycle), Forth(payCycle), c);
  }

  /** `FixedStepCountBeforeWindow` for any pair of steps by `c` days. */
  lemma FixedStepCount(next: Day, first: Day, last: Day, back: Day -> Day, forth: Day -> Day, c: int)
    requires c > 0 && next < first
    requires forall x :: forth(x) == x + c
    requires forall x :: back(x) == x + -c
    ensures Grows(forth) && Shrinks(back)
    ensures var a, n := StepsBelow(next, first, forth), Occurrences(next, first, last, back, forth);
      forall k: int :: first <= next + c * k <= last <==> a <= k < a + n
  {
    var a, n := StepsBelow(next, first, forth), Occurrences(next, first, last, back, forth);
    if next <= last {
      OccurrencesFromAnchor(next, first, last, back, forth);
      forall k: int ensures first <= next + c * k <= last <==> a <= k < a + n {
        if k >= 0 {
          IterateFixedStep(forth, c, next, k);
        }
      }
    } else {
      OccurrencesAfterWindow(next, first, last, back, forth);
    }
  }

  /** With `next` inside the window only `next` and the steps after it are
      counted: `(last - next) / c + 1` pay dates, whatever earlier steps
      fall in the window too. */
  lemma FixedStepCountFromInside(next: Day, first: Day, last: Day, payCycle: string, c: int)
    requires (payCycle == "weekly" && c == 7) || (payCycle == "biweekly" && c == 14)
    requires first <= next <= last
    ensures Occurrences(next, first, last, Back(payCycle), Forth(payCycle)) == (last - next) / c + 1
  {
    var back, forth := Back(payCycle), Forth(payCycle);
    FixedSteps(payCycle, c);
    var n := Occurrences(next, first, last, back, forth);
    assert StepsBelow(next, first, forth) == 0 by {
      StepsBelowUnique(next, first, forth, 0);
    }
    OccurrencesFromAnchor(next, first, last, back, forth);
    var q := (last - next) / c;
    IterateFixedStep(forth, c, next, q);
    IterateFixedStep(forth, c, next, q + 1);
    assert first <= Iterate(forth, next, q) <= last;
    assert !(Iterate(forth, next, q + 1) <= last);
  }

  /** So the count is not the number of `next + 7 * k` in the window: with
      the window running from a week before `next` to a week after it,
      three such days lie in it but two are counted. */
  lemma EarlierPayDatesNotCounted(next: Day)
    ensures Occurrences(next, next - 7, next + 7, Back("weekly"), Forth("weekly")) == 2
    ensures forall k: int :: next - 7 <= next + 7 * k <= next + 7 <==> -1 <= k <= 1
  {
    FixedStepCountFromInside(next, next - 7, next + 7, "weekly", 7);
  }

  /** Both ends of the window `calculateCycle` derives from a recurring
      main income are pay dates of that income, so the main income is
      counted twice in its own cycle. */
  lemma MainIncomeCountedTwice(i: Income)
    requires ValidIncome(i) && i.payCycle != "one-time"
    ensures Cycle.CalculateCycle(Some(i)).Success?
    ensures var w := Cycle.CalculateCycle(Some(i)).value;
      IncomeOccurrences(i, DayOf(w.cycleStart), DayOf(w.cycleEnd)) == 2
  {
    var forth := Forth(i.payCycle);
    var first := DayOf(i.nextPayDate);
    var w := Cycle.CalculateCycle(Some(i)).value;
    DayOfNormalised(first);
    var last := DayOf(w.cycleEnd);
    assert last == forth(first);
    StepsBelowUnique(first, first, forth, 0);
    assert Iterate(forth, first, 1) == last;
    StepsWithinUnique(first, last, forth, 2);
  }

  lemma FixedSteps(payCycle: string, c: int)
    requires (payCycle == "weekly" && c == 7) || (payCycle == "biweekly" && c == 14)
    ensures forall x :: Forth(payCycle)(x) == x + c
    ensures forall x :: Back(payCycle)(x) == x + -c
  {
  }
}
