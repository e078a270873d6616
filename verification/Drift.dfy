/** Maximum drawdown in one pass over a strategy's returns, against its definition over all pairs of days. */
module Drift {
  import opened Common

  const SMALLEST_PEAK := 0.000000001

  /** The equity curve: one unit, compounded by the first `k` returns. */
  function Equity(changes: seq<real>, k: nat): real
    requires k <= |changes|
  {
    if k == 0 then 1.0 else Part(Equity(changes, k - 1), 1.0 + changes[k - 1])
  }

  function Peak(changes: seq<real>, k: nat): real
    requires k <= |changes|
  {
    if k == 0 then 1.0 else Max(Peak(changes, k - 1), Equity(changes, k))
  }

  /** The highest equity so far is reached on some day and exceeded on none. */
  lemma {:induction false} PeakIsHighest(changes: seq<real>, k: nat) returns (day: nat)
    requires k <= |changes|
    ensures day <= k && Peak(changes, k) == Equity(changes, day) && Peak(changes, k) >= 1.0
    ensures forall i :: 0 <= i <= k ==> Equity(changes, i) <= Peak(changes, k)
  {
    if k == 0 {
      day := 0;
    } else {
      day := PeakIsHighest(changes, k - 1);
      if Equity(changes, k) > Peak(changes, k - 1) {
        day := k;
      }
    }
  }

  /** The loss from day i to day j as a fraction of day i's equity. */
  function Loss(from: real, to: real): real
    requires from != 0.0
  {
    (from - to) / from
  }

  /** From day i on, if equity was positive then, no more than `d` is lost until day j. */
  predicate LosesAtMost(changes: seq<real>, i: nat, j: nat, d: real)
    requires i <= j <= |changes|
  {
    Equity(changes, i) > 0.0 ==> Loss(Equity(changes, i), Equity(changes, j)) <= d
  }

  /** No pair of days with the earlier one above zero lost more, and one of them lost just as much. */
  ghost predicate IsMaxDrawdown(changes: seq<real>, d: real) {
    && (forall i, j :: 0 <= i <= j <= |changes| ==> LosesAtMost(changes, i, j, d))
    && (exists i, j :: 0 <= i <= j <= |changes| && Equity(changes, i) > 0.0 &&
          Loss(Equity(changes, i), Equity(changes, j)) == d)
  }

  /** The largest fall below the peak of the day, over the first `k` returns. */
  function Deepest(changes: seq<real>, k: nat): real
    requires k <= |changes|
  {
    if k == 0 then 0.0
    else Max(Deepest(changes, k - 1), (Peak(changes, k) - Equity(changes, k)) / Max(Peak(changes, k), SMALLEST_PEAK))
  }

  /** The one-pass loop. */
  method MaxDrawdownFromReturns(changes: seq<real>) returns (maxDrawdown: real)
    ensures maxDrawdown == Deepest(changes, |changes|)
    ensures (forall i :: 0 <= i < |changes| ==> changes[i] >= -1.0) ==> IsMaxDrawdown(changes, maxDrawdown)
  {
    var equity, peak := 1.0, 1.0;
    maxDrawdown := 0.0;
    for i := 0 to |changes|
      invariant equity == Equity(changes, i) && peak == Peak(changes, i)
      invariant maxDrawdown == Deepest(changes, i)
    {
      equity := Part(equity, 1.0 + changes[i]);
      peak := Max(peak, equity);
      var drawdown := (peak - equity) / Max(peak, SMALLEST_PEAK);
      maxDrawdown := Max(maxDrawdown, drawdown);
    }
    if forall i :: 0 <= i < |changes| ==> changes[i] >= -1.0 {
      OnePassIsMaxDrawdown(changes);
    }
  }

  /** No return so far is a total loss. */
  ghost predicate Surviving(changes: seq<real>, k: nat)
    requires k <= |changes|
  {
    forall i :: 0 <= i < k ==> changes[i] > -1.0
  }

  lemma {:induction false} EquitySign(changes: seq<real>, k: nat)
    requires k <= |changes| && forall i :: 0 <= i < k ==> changes[i] >= -1.0
    ensures Equity(changes, k) >= 0.0
    ensures Equity(changes, k) > 0.0 <==> Surviving(changes, k)
  {
    if k > 0 {
      EquitySign(changes, k - 1);
      Sign(Equity(changes, k - 1), 1.0 + changes[k - 1]);
      assert Surviving(changes, k) <==> Surviving(changes, k - 1) && changes[k - 1] > -1.0;
    }
  }

  lemma Sign(a: real, b: real)
    requires a >= 0.0 && b >= 0.0
    ensures Part(a, b) >= 0.0 && (Part(a, b) > 0.0 <==> a > 0.0 && b > 0.0)
  {
  }

  lemma LossIs(from: real, to: real, part: real)
    requires from > 0.0 && part * from == to
    ensures Loss(from, to) == 1.0 - part
  {
    var loss := Loss(from, to);
    assert loss * from == from - to == (1.0 - part) * from;
    Cancel(loss, 1.0 - part, from);
  }

  lemma SmallerPart(low: real, high: real, a: real, b: real)
    requires 0.0 < low <= high && a * low == b * high >= 0.0
    ensures 0.0 <= b <= a
    ensures b > 0.0 <==> b * high > 0.0
  {
    assert a >= 0.0;
    assert a * low <= a * high;
    assert b * high <= a * high;
  }

  /** From a higher peak the same fall is deeper. */
  lemma LossFromHigher(low: real, high: real, to: real)
    requires 0.0 < low <= high && to >= 0.0
    ensures Loss(low, to) <= Loss(high, to) <= 1.0
    ensures Loss(high, to) < 1.0 <==> to > 0.0
  {
    var a, b := to / low, to / high;
    assert a * low == to && b * high == to;
    LossIs(low, to, a);
    LossIs(high, to, b);
    SmallerPart(low, high, a, b);
  }

  lemma {:induction false} DeepestBounds(changes: seq<real>, j: nat, k: nat)
    requires j <= k <= |changes|
    ensures Peak(changes, j) >= 1.0
    ensures Loss(Peak(changes, j), Equity(changes, j)) <= Deepest(changes, k)
    decreases k
  {
    var day := PeakIsHighest(changes, j);
    if j < k {
      DeepestBounds(changes, j, k - 1);
    }
  }

  lemma {:induction false} DeepestIsReached(changes: seq<real>, k: nat) returns (i: nat, j: nat)
    requires k <= |changes|
    ensures i <= j <= k && Equity(changes, i) == Peak(changes, j) >= 1.0
    ensures Deepest(changes, k) == Loss(Peak(changes, j), Equity(changes, j)) >= 0.0
  {
    i := PeakIsHighest(changes, k);
    j := k;
    if k > 0 {
      var before, at := DeepestIsReached(changes, k - 1);
      if Deepest(changes, k) == Deepest(changes, k - 1) {
        i, j := before, at;
      }
    }
  }

  /** For any returns the loop's result is the loss over some pair of days, so it never overstates the drawdown. */
  lemma {:induction false} NeverOverstated(changes: seq<real>) returns (i: nat, j: nat)
    ensures i <= j <= |changes| && Equity(changes, i) > 0.0
    ensures Loss(Equity(changes, i), Equity(changes, j)) == Deepest(changes, |changes|)
  {
    i, j := DeepestIsReached(changes, |changes|);
  }

  lemma {:induction false} BoundedWhileSolvent(changes: seq<real>, i: nat, j: nat)
    requires i <= j <= |changes| && Equity(changes, j) >= 0.0
    ensures LosesAtMost(changes, i, j, Deepest(changes, |changes|))
  {
    if Equity(changes, i) > 0.0 {
      var day := PeakIsHighest(changes, j);
      LossFromHigher(Equity(changes, i), Peak(changes, j), Equity(changes, j));
      DeepestBounds(changes, j, |changes|);
    }
  }

  /** No fall into negative equity loses more than `d`. */
  predicate DebtsLoseAtMost(changes: seq<real>, d: real) {
    forall i, j :: 0 <= i <= j <= |changes| && Equity(changes, j) < 0.0 ==> LosesAtMost(changes, i, j, d)
  }

  /** It is the maximum drawdown exactly when it bounds every fall into negative equity. */
  lemma {:induction false} OnePassIsMaxIff(changes: seq<real>)
    ensures IsMaxDrawdown(changes, Deepest(changes, |changes|)) <==>
            DebtsLoseAtMost(changes, Deepest(changes, |changes|))
  {
    var d := Deepest(changes, |changes|);
    var i, j := NeverOverstated(changes);
    forall i, j | 0 <= i <= j <= |changes| && Equity(changes, j) >= 0.0 ensures LosesAtMost(changes, i, j, d) {
      BoundedWhileSolvent(changes, i, j);
    }
  }

  /** The account is never in debt. */
  predicate Solvent(changes: seq<real>) {
    forall j :: 0 <= j <= |changes| ==> Equity(changes, j) >= 0.0
  }

  /**
   Day k is in debt, equity has been at its starting value or in debt until then, and no fall into
   debt, from any day on, loses a greater part than the fall from the starting value to day k.
   */
  predicate DeepestDebt(changes: seq<real>, k: nat)
    requires k <= |changes|
  {
    && Equity(changes, k) < 0.0
    && (forall i :: 0 <= i <= k ==> Equity(changes, i) <= 0.0 || Equity(changes, i) == 1.0)
    && DebtsLoseAtMost(changes, 1.0 - Equity(changes, k))
  }

  lemma LossToDebt(from: real, to: real)
    requires from > 0.0
    ensures Loss(from, to) > 1.0 <==> to < 0.0
    ensures from == 1.0 ==> Loss(from, to) == 1.0 - to
  {
    var part := to / from;
    LossIs(from, to, part);
    if part < 0.0 {
      ScaleBy(part, 0.0, from);
    } else {
      ScaleBy(0.0, part, from);
    }
    assert part * from == to;
  }

  lemma GreaterPart(low: real, high: real, a: real, b: real)
    requires 0.0 < low < high && a * low == b * high < 0.0
    ensures a < b < 0.0
  {
    assert b < 0.0;
    assert b * (high - low) < 0.0;
    assert b * high == b * low + b * (high - low);
    assert a * low < b * low;
    if b <= a {
      ScaleBy(b, a, low);
    }
  }

  /** From a lower starting point a fall into debt loses a greater part. */
  lemma DebtFromLower(low: real, high: real, to: real)
    requires 0.0 < low < high && to < 0.0
    ensures Loss(low, to) > Loss(high, to)
  {
    var a, b := to / low, to / high;
    LossIs(low, to, a);
    LossIs(high, to, b);
    GreaterPart(low, high, a, b);
  }

  lemma {:induction false} DebtIsDeepest(changes: seq<real>, k: nat)
    requires k <= |changes| && DeepestDebt(changes, k)
    ensures Deepest(changes, |changes|) >= 1.0 - Equity(changes, k)
  {
    var day := PeakIsHighest(changes, k);
    assert Equity(changes, day) == 1.0;
    LossToDebt(Peak(changes, k), Equity(changes, k));
    DeepestBounds(changes, k, |changes|);
  }

  /** When the result is the maximum, the day it is reached on is the deepest debt. */
  lemma {:induction false} DeepestIsDebt(changes: seq<real>) returns (k: nat)
    requires IsMaxDrawdown(changes, Deepest(changes, |changes|)) && !Solvent(changes)
    ensures k <= |changes| && DeepestDebt(changes, k)
  {
    var n, d := |changes|, Deepest(changes, |changes|);
    var start: nat;
    start, k := DeepestIsReached(changes, n);
    var debt :| 0 <= debt <= n && Equity(changes, debt) < 0.0;
    LossToDebt(1.0, Equity(changes, debt));
    assert LosesAtMost(changes, 0, debt, d);
    LossToDebt(Peak(changes, k), Equity(changes, k));
    forall i | 0 <= i <= k && Equity(changes, i) > 0.0 ensures Equity(changes, i) == Peak(changes, k) {
      var day := PeakIsHighest(changes, k);
      assert LosesAtMost(changes, i, k, d);
      if Equity(changes, i) < Peak(changes, k) {
        DebtFromLower(Equity(changes, i), Peak(changes, k), Equity(changes, k));
      }
    }
    assert Equity(changes, 0) == 1.0 == Peak(changes, k);
  }

  /**
   For any returns: the result is the maximum drawdown exactly when the account is never in debt, or
   some day in debt is the deepest, with equity never off its starting value above zero until then.
   */
  lemma {:induction false} OnePassIsMaxExactly(changes: seq<real>)
    ensures IsMaxDrawdown(changes, Deepest(changes, |changes|)) <==>
            Solvent(changes) || exists k :: 0 <= k <= |changes| && DeepestDebt(changes, k)
  {
    OnePassIsMaxIff(changes);
    var d := Deepest(changes, |changes|);
    if !Solvent(changes) && IsMaxDrawdown(changes, d) {
      var k := DeepestIsDebt(changes);
    } else if k :| 0 <= k <= |changes| && DeepestDebt(changes, k) {
      DebtIsDeepest(changes, k);
      forall i, j | 0 <= i <= j <= |changes| && Equity(changes, j) < 0.0 ensures LosesAtMost(changes, i, j, d) {
        assert LosesAtMost(changes, i, j, 1.0 - Equity(changes, k));
      }
    }
  }

  /**
   For returns no worse than a total loss equity is never negative, so the loop finds the maximum over all
   pairs of days.
   */
  lemma {:induction false} OnePassIsMaxDrawdown(changes: seq<real>)
    requires forall i :: 0 <= i < |changes| ==> changes[i] >= -1.0
    ensures IsMaxDrawdown(changes, Deepest(changes, |changes|))
  {
    OnePassIsMaxExactly(changes);
    forall j | 0 <= j <= |changes| ensures Equity(changes, j) >= 0.0 {
      EquitySign(changes, j);
    }
  }

  /** The drawdown is a fraction, and a whole one exactly when some return is a total loss. */
  lemma {:induction false} DrawdownIsAFraction(changes: seq<real>)
    requires forall i :: 0 <= i < |changes| ==> changes[i] >= -1.0
    ensures 0.0 <= Deepest(changes, |changes|) <= 1.0
    ensures Deepest(changes, |changes|) < 1.0 <==> Surviving(changes, |changes|)
  {
    var n := |changes|;
    var i, j := DeepestIsReached(changes, n);
    EquitySign(changes, j);
    EquitySign(changes, n);
    var day := PeakIsHighest(changes, n);
    LossFromHigher(Peak(changes, j), Peak(changes, j), Equity(changes, j));
    LossFromHigher(Peak(changes, n), Peak(changes, n), Equity(changes, n));
    DeepestBounds(changes, n, n);
  }

  /** Past a total loss the equity is negative, and the loop can then understate the drawdown. */
  lemma BelowTotalLoss()
    ensures Deepest([-0.5, -3.0], 2) == 2.0
    ensures !IsMaxDrawdown([-0.5, -3.0], 2.0)
  {
    var changes := [-0.5, -3.0];
    assert Equity(changes, 1) == 0.5 && Equity(changes, 2) == -1.0;
    assert Peak(changes, 1) == 1.0 && Peak(changes, 2) == 1.0;
    assert Deepest(changes, 1) == 0.5;
    assert !LosesAtMost(changes, 1, 2, 2.0);
  }
}
