/** The value-moving handlers as the server runs them, each shown to send exactly its
    planned transactions. A handler reports success only when it got past its checks
    and every transaction landed. */
module Handlers {
  import opened Wrappers
  import opened Vault
  import opened Treasury
  import opened Flows
  import opened Conversion

  class Backend {
    const platform: Platform
    const treasury: TreasuryService
    var consumers: seq<Wallet>
    var merchants: seq<Wallet>

    constructor (p: Platform, t: TreasuryService, cs: seq<Wallet>, ms: seq<Wallet>)
      ensures platform == p && treasury == t && consumers == cs && merchants == ms
    {
      platform, treasury, consumers, merchants := p, t, cs, ms;
    }

    ghost function Rows(): seq<Wallet>
      reads this
    {
      consumers + merchants
    }

    ghost predicate Sends(l: Ledger, fuel: nat, plan: seq<Tx>, ok: bool)
      reads treasury
    {
      var o := Run(l, plan, fuel);
      treasury.ledger == o.ledger && treasury.fuel == o.fuel && (ok <==> plan != [] && o.done)
    }

    /** The debit, and only if it lands the credit. */
    method Move(from: Wallet, to: Wallet, amount: nat, c: Currency) returns (ok: bool)
      modifies treasury
      ensures Sends(old(treasury.ledger), old(treasury.fuel), [Debit(from, amount, c), Credit(to, amount, c)], ok)
    {
      ghost var debit, credit := [Debit(from, amount, c)], [Credit(to, amount, c)];
      RunAppend(treasury.ledger, debit, credit, treasury.fuel);
      assert debit + credit == [Debit(from, amount, c), Credit(to, amount, c)];
      ok := treasury.VaultAdminDebit(from, amount, c);
      if !ok {
        return;
      }
      ok := treasury.VaultAdminCredit(to, amount, c);
    }

    /** releaseEscrow: escrow pays a merchant, a consumer or a claimant. */
    method ReleaseEscrow(to: Wallet, amount: nat, c: Currency) returns (ok: bool)
      modifies treasury
      ensures Sends(old(treasury.ledger), old(treasury.fuel),
                    [Debit(platform.escrow, amount, c), Credit(to, amount, c)], ok)
      ensures Sends(old(treasury.ledger), old(treasury.fuel), ReleasePlan(platform, to, amount, c), ok)
    {
      ok := Move(platform.escrow, to, amount, c);
    }

    /** executeTransfer: a change voucher, topping up the merchant when short. */
    method ExecuteTransfer(merchant: Wallet, consumer: Wallet, amount: nat, c: Currency) returns (ok: bool)
      modifies treasury
      ensures var was := old(treasury.ledger);
              var held := Balance(was, merchant, c);
              Sends(was, old(treasury.fuel),
                    (if held < amount then TopUpPlan(was, Rows(), merchant, amount - held, c) else [])
                    + [Debit(merchant, amount, c), Credit(consumer, amount, c)], ok)
      ensures Sends(old(treasury.ledger), old(treasury.fuel),
                    VoucherPlan(old(treasury.ledger), Rows(), merchant, consumer, amount, c), ok)
    {
      ghost var l, f := treasury.ledger, treasury.fuel;
      var held := Balance(treasury.ledger, merchant, c);
      ghost var top := if held < amount then TopUpPlan(l, Rows(), merchant, amount - held, c) else [];
      ghost var pay := [Debit(merchant, amount, c), Credit(consumer, amount, c)];
      assert VoucherPlan(l, Rows(), merchant, consumer, amount, c) == top + pay;
      RunAppend(l, top, pay, f);
      ok := true;
      if held < amount {
        var shortfall := amount - held;
        ok := treasury.CreditFiatWithTreasuryBacking(consumers, merchants, merchant, shortfall, c);
        if !ok {
          return;
        }
      }
      ok := Move(merchant, consumer, amount, c);
    }

    /** The fiat is debited and the USDC credited when the amount, the rate and the result
        are positive, the holder has the fiat and the Vault the USDC; otherwise nothing
        happens. */
    method ConvertFiatToUsd(w: Wallet, fiatUnits: nat, rate: Option<real>, spreadBps: nat, c: Currency)
      returns (ok: bool)
      modifies treasury
      ensures var was := old(treasury.ledger);
              if 0 < fiatUnits <= Balance(was, w, c) && rate.Some? && rate.value > 0.0
                 && 0 < UsdcFor(fiatUnits, rate.value, spreadBps) <= Get(was.inventory, Usdc)
              then Sends(was, old(treasury.fuel),
                         [Debit(w, fiatUnits, c), Credit(w, UsdcFor(fiatUnits, rate.value, spreadBps), Usdc)], ok)
              else !ok && unchanged(treasury)
    {
      if fiatUnits == 0 || Balance(treasury.ledger, w, c) < fiatUnits {
        return false;
      }
      if rate.None? || rate.value <= 0.0 {
        return false;
      }
      var usdcUnits := UsdcFor(fiatUnits, rate.value, spreadBps);
      if usdcUnits <= 0 {
        return false;
      }
      var reserve := Get(treasury.ledger.inventory, Usdc);
      if reserve < usdcUnits {
        return false;
      }
      ghost var debit, credit := [Debit(w, fiatUnits, c)], [Credit(w, usdcUnits, Usdc)];
      RunAppend(treasury.ledger, debit, credit, treasury.fuel);
      assert [Debit(w, fiatUnits, c), Credit(w, usdcUnits, Usdc)] == debit + credit;
      ok := treasury.VaultAdminDebit(w, fiatUnits, c);
      if !ok {
        return;
      }
      ok := treasury.VaultAdminCredit(w, usdcUnits, Usdc);
    }

    /** The USDC is debited and the backed fiat credited when the amount, the rate and the
        result are positive and the holder has the USDC; otherwise nothing happens. The float
        is read after the USDC debit; the debit does not change what is read. */
    method ConvertUsdToFiat(w: Wallet, usdcUnits: nat, rate: Option<real>, spreadBps: nat, c: Currency)
      returns (ok: bool)
      requires c.Fiat?
      modifies treasury
      ensures var was := old(treasury.ledger);
              if 0 < usdcUnits <= Balance(was, w, Usdc) && rate.Some? && rate.value > 0.0
                 && 0 < FiatFor(usdcUnits, rate.value, spreadBps)
              then Sends(was, old(treasury.fuel),
                         [Debit(w, usdcUnits, Usdc)]
                         + TopUpPlan(was, Rows(), w, FiatFor(usdcUnits, rate.value, spreadBps), c), ok)
              else !ok && unchanged(treasury)
    {
      ghost var l, f := treasury.ledger, treasury.fuel;
      if usdcUnits == 0 || Balance(treasury.ledger, w, Usdc) < usdcUnits {
        return false;
      }
      if rate.None? || rate.value <= 0.0 {
        return false;
      }
      var fiatUnits := FiatFor(usdcUnits, rate.value, spreadBps);
      if fiatUnits <= 0 {
        return false;
      }
      RunAppend(l, [Debit(w, usdcUnits, Usdc)], TopUpPlan(l, Rows(), w, fiatUnits, c), f);
      ok := treasury.VaultAdminDebit(w, usdcUnits, Usdc);
      if !ok {
        return;
      }
      DebitKeepsFloat(l, w, usdcUnits, Rows(), fiatUnits, c);
      assert [Debit(w, usdcUnits, Usdc)][1..] == [];
      ok := treasury.CreditFiatWithTreasuryBacking(consumers, merchants, w, fiatUnits, c);
    }

    /** A merchant with enough is debited and the treasury swept on the fiat rail, or paid
        out on the other; one without is refused and nothing happens. */
    method ExecuteSettlement(merchant: Wallet, amount: nat, c: Currency, country: Currency,
                             fiatRail: bool, destination: Wallet) returns (ok: bool)
      modifies treasury
      ensures if amount <= Balance(old(treasury.ledger), merchant, c)
              then Sends(old(treasury.ledger), old(treasury.fuel),
                         if fiatRail then [Debit(merchant, amount, c), Sweep(amount, country)]
                         else [Withdraw(merchant, destination, amount, c)], ok)
              else !ok && unchanged(treasury)
      ensures Sends(old(treasury.ledger), old(treasury.fuel),
                    if fiatRail then FiatSettlementPlan(old(treasury.ledger), merchant, amount, c, country)
                    else OnchainSettlementPlan(old(treasury.ledger), merchant, destination, amount, c), ok)
    {
      if Balance(treasury.ledger, merchant, c) < amount {
        return false;
      }
      if fiatRail {
        ghost var debit, sweep := [Debit(merchant, amount, c)], [Sweep(amount, country)];
        RunAppend(treasury.ledger, debit, sweep, treasury.fuel);
        assert FiatSettlementPlan(treasury.ledger, merchant, amount, c, country) == debit + sweep;
        ok := treasury.VaultAdminDebit(merchant, amount, c);
        if !ok {
          return;
        }
        ok := treasury.SweepTreasuryFromVault(amount, country);
      } else {
        ok := treasury.WithdrawToExternal(merchant, destination, amount, c);
      }
    }

    /** submitWithdrawal from its balance re-check to its last transaction: the net amount
        goes out and a positive fee to the treasury when the sender has the gross amount and
        the Vault the net; otherwise nothing happens. */
    method PayWithdrawal(from: Wallet, to: Wallet, gross: nat, fee: nat) returns (ok: bool)
      requires fee <= gross
      modifies treasury
      ensures var was := old(treasury.ledger);
              if gross <= Balance(was, from, Usdc) && gross - fee <= Get(was.inventory, Usdc)
              then Sends(was, old(treasury.fuel),
                         [Withdraw(from, to, gross - fee, Usdc)]
                         + (if fee > 0 then [Debit(from, fee, Usdc), Credit(platform.treasury, fee, Usdc)] else []),
                         ok)
              else !ok && unchanged(treasury)
    {
      if Balance(treasury.ledger, from, Usdc) < gross {
        return false;
      }
      var inventory := Get(treasury.ledger.inventory, Usdc);
      if inventory < gross - fee {
        return false;
      }
      ghost var l, f := treasury.ledger, treasury.fuel;
      ghost var first := [Withdraw(from, to, gross - fee, Usdc)];
      ghost var fees := if fee > 0 then [Debit(from, fee, Usdc), Credit(platform.treasury, fee, Usdc)] else [];
      RunAppend(l, first, fees, f);
      ok := treasury.WithdrawToExternal(from, to, gross - fee, Usdc);
      if ok && fee > 0 {
        ok := Move(from, platform.treasury, fee, Usdc);
      }
    }
  }

  lemma {:induction false} SumKept(l: Ledger, k: Ledger, rows: seq<Wallet>, c: Currency)
    requires ClaimsOf(l, c) == ClaimsOf(k, c)
    ensures SumOver(l, rows, c) == SumOver(k, rows, c)
  {
    if rows != [] {
      SumKept(l, k, rows[..|rows| - 1], c);
    }
  }

  lemma DebitKeepsFloat(l: Ledger, w: Wallet, usdcUnits: nat, rows: seq<Wallet>, amount: nat, c: Currency)
    requires c.Fiat? && Execute(l, Debit(w, usdcUnits, Usdc)).Some?
    ensures var k := Execute(l, Debit(w, usdcUnits, Usdc)).value;
            TopUpPlan(k, rows, w, amount, c) == TopUpPlan(l, rows, w, amount, c)
  {
    var k := Execute(l, Debit(w, usdcUnits, Usdc)).value;
    SumKept(l, k, rows, c);
  }
}
