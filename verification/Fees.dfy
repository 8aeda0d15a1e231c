/** revenueConfig.ts: the withdrawal fee on integer token units. */
module Fees {
  import opened Wrappers

  /** None is the error "fee would consume the entire amount". */
  function WithdrawalFee(gross: nat, bps: int): Option<nat> {
    if bps <= 0 then Some(0)
    else
      var fee := (gross * bps + 9999) / 10000;
      if fee >= gross then None else Some(fee)
  }

  function Sum(parts: seq<nat>): nat {
    if parts == [] then 0 else Sum(parts[..|parts| - 1]) + parts[|parts| - 1]
  }

  function SumOfFees(parts: seq<nat>, bps: int): nat
    requires forall g :: g in parts ==> WithdrawalFee(g, bps).Some?
  {
    if parts == [] then 0
    else SumOfFees(parts[..|parts| - 1], bps) + WithdrawalFee(parts[|parts| - 1], bps).value
  }

  /** The fee is the least whole number of units that covers the rate, and an amount is
      refused exactly when no fee below it covers the rate. */
  lemma FeeIsLeast(gross: nat, bps: int, other: nat)
    requires bps > 0
    ensures WithdrawalFee(gross, bps).Some? ==>
              var fee := WithdrawalFee(gross, bps).value;
              fee * 10000 >= gross * bps && (other * 10000 >= gross * bps ==> fee <= other)
    ensures WithdrawalFee(gross, bps).None? <==> forall f: nat :: f < gross ==> f * 10000 < gross * bps
  {
    var rate := gross * bps;
    var fee := (rate + 9999) / 10000;
    assert fee * 10000 >= rate;
    if fee < gross {
      assert !(fee * 10000 < gross * bps);
    }
  }

  lemma {:induction false} SumNonNegative(parts: seq<nat>, bps: int)
    requires bps > 0 && parts != []
    requires forall g :: g in parts ==> WithdrawalFee(g, bps).Some?
    ensures SumOfFees(parts, bps) < Sum(parts)
  {
    if |parts| > 1 {
      SumNonNegative(parts[..|parts| - 1], bps);
    } else {
      assert parts[..0] == [];
    }
  }

  lemma Spread(a: nat, b: nat, bps: int)
    ensures (a + b) * bps == a * bps + b * bps
  {
  }

  lemma CeilingOfSum(x: int, y: int)
    ensures (x + y + 9999) / 10000 <= (x + 9999) / 10000 + (y + 9999) / 10000 <= (x + y + 9999) / 10000 + 1
  {
  }

  lemma {:induction false} CeilingBounds(parts: seq<nat>, bps: int)
    requires bps > 0 && parts != []
    requires forall g :: g in parts ==> WithdrawalFee(g, bps).Some?
    ensures var whole := (Sum(parts) * bps + 9999) / 10000;
            whole <= SumOfFees(parts, bps) <= whole + |parts| - 1
  {
    var init, last := parts[..|parts| - 1], parts[|parts| - 1];
    if |parts| == 1 {
      assert init == [];
    } else {
      CeilingBounds(init, bps);
      Spread(Sum(init), last, bps);
      CeilingOfSum(Sum(init) * bps, last * bps);
    }
  }

  /** Cutting a withdrawal into accepted parts is itself accepted whole, never lowers the
      total fee, and raises it by less than one unit per extra part. */
  lemma {:induction false} SplittingNeverSaves(parts: seq<nat>, bps: int)
    requires parts != []
    requires forall g :: g in parts ==> WithdrawalFee(g, bps).Some?
    ensures WithdrawalFee(Sum(parts), bps).Some?
    ensures var whole := WithdrawalFee(Sum(parts), bps).value;
            whole <= SumOfFees(parts, bps) <= whole + |parts| - 1
  {
    if bps > 0 {
      CeilingBounds(parts, bps);
      SumNonNegative(parts, bps);
    } else {
      NoFees(parts, bps);
    }
  }

  lemma {:induction false} NoFees(parts: seq<nat>, bps: int)
    requires bps <= 0
    ensures SumOfFees(parts, bps) == 0
  {
    if parts != [] {
      NoFees(parts[..|parts| - 1], bps);
    }
  }
}
