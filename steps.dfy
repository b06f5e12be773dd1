/** Repeated steps over calendar days: the cursor loops of both pay-date
    engines move a date with a step function until it leaves a range, and
    everything they compute is stated in terms of `Iterate`. */
module Steps {
  import opened Dates

  ghost predicate Grows(step: Day -> Day) {
    forall d :: d < step(d)
  }

  ghost predicate Shrinks(step: Day -> Day) {
    forall d :: step(d) < d
  }

  /** `step` applied `k` times to `d`. */
  ghost function Iterate(step: Day -> Day, d: Day, k: nat): Day {
    if k == 0 then d else step(Iterate(step, d, k - 1))
  }

  /** The dates `Iterate(step, d, lo)`, ..., `Iterate(step, d, hi - 1)`. */
  ghost function Walk(step: Day -> Day, d: Day, lo: nat, hi: nat): (w: seq<Day>)
    requires lo <= hi
    ensures |w| == hi - lo
    ensures forall i :: 0 <= i < |w| ==> w[i] == Iterate(step, d, lo + i)
    decreases hi
  {
    if hi == lo then [] else Walk(step, d, lo, hi - 1) + [Iterate(step, d, hi - 1)]
  }

  lemma {:induction false} IterateGrows(step: Day -> Day, d: Day, i: nat, j: nat)
    requires Grows(step) && i < j
    ensures Iterate(step, d, i) < Iterate(step, d, j)
    decreases j - i
  {
    assert Iterate(step, d, j - 1) < step(Iterate(step, d, j - 1));
    if i + 1 < j {
      IterateGrows(step, d, i, j - 1);
    }
  }

  lemma {:induction false} IterateShrinks(step: Day -> Day, d: Day, i: nat, j: nat)
    requires Shrinks(step) && i < j
    ensures Iterate(step, d, j) < Iterate(step, d, i)
    decreases j - i
  {
    assert step(Iterate(step, d, j - 1)) < Iterate(step, d, j - 1);
    if i + 1 < j {
      IterateShrinks(step, d, i, j - 1);
    }
  }

  /** A step that always moves by `c` days, iterated `k` times, moves by `c * k`. */
  lemma {:induction false} IterateFixedStep(step: Day -> Day, c: int, d: Day, k: nat)
    requires forall x :: step(x) == x + c
    ensures Iterate(step, d, k) == d + c * k
  {
    if k > 0 {
      IterateFixedStep(step, c, d, k - 1);
      assert c * k == c * (k - 1) + c;
    }
  }

  /** `i` steps and then `j` more are `i + j` steps. */
  lemma {:induction false} IterateAdd(step: Day -> Day, d: Day, i: nat, j: nat)
    ensures Iterate(step, Iterate(step, d, i), j) == Iterate(step, d, i + j)
  {
    if j > 0 {
      IterateAdd(step, d, i, j - 1);
    }
  }
}
