/** Every backend handler that moves value, as the transactions it plans from what it
    reads on entry, and the methods that send them. */
module Flows {
  import opened Sums
  import opened Vault
  import opened Treasury

  datatype Platform = Platform(escrow: Wallet, treasury: Wallet)

  datatype Request =
    | CashIn(wallet: Wallet, amount: nat, currency: Currency)
    | FiatToUsd(wallet: Wallet, fiatUnits: nat, usdcUnits: nat, currency: Currency)
    | UsdToFiat(wallet: Wallet, usdcUnits: nat, fiatUnits: nat, currency: Currency)
    | ChangeVoucher(merchant: Wallet, consumer: Wallet, amount: nat, currency: Currency)
    | EscrowRelease(to: Wallet, amount: nat, currency: Currency)
    | FiatSettlement(merchant: Wallet, amount: nat, currency: Currency, country: Currency)
    | OnchainSettlement(merchant: Wallet, destination: Wallet, amount: nat, currency: Currency)
    | Withdrawal(from: Wallet, to: Wallet, gross: nat, fee: nat)

  function CashInPlan(w: Wallet, amount: nat, c: Currency): seq<Tx> {
    [Mint(amount, c), Credit(w, amount, c)]
  }

  function ReleasePlan(p: Platform, to: Wallet, amount: nat, c: Currency): seq<Tx> {
    [Debit(p.escrow, amount, c), Credit(to, amount, c)]
  }

  /** What a merchant whose float is short is topped up with. */
  function ShortfallPlan(l: Ledger, rows: seq<Wallet>, merchant: Wallet, amount: nat, c: Currency): seq<Tx> {
    var held := Balance(l, merchant, c);
    if held < amount then TopUpPlan(l, rows, merchant, amount - held, c) else []
  }

  function VoucherPlan(l: Ledger, rows: seq<Wallet>, merchant: Wallet, consumer: Wallet,
                       amount: nat, c: Currency): seq<Tx> {
    ShortfallPlan(l, rows, merchant, amount, c) + [Debit(merchant, amount, c), Credit(consumer, amount, c)]
  }

  function FiatToUsdPlan(l: Ledger, w: Wallet, fiatUnits: nat, usdcUnits: nat, c: Currency): seq<Tx> {
    if Balance(l, w, c) < fiatUnits || Get(l.inventory, Usdc) < usdcUnits then []
    else [Debit(w, fiatUnits, c), Credit(w, usdcUnits, Usdc)]
  }

  function UsdToFiatPlan(l: Ledger, rows: seq<Wallet>, w: Wallet, usdcUnits: nat, fiatUnits: nat,
                         c: Currency): seq<Tx> {
    if Balance(l, w, Usdc) < usdcUnits then []
    else [Debit(w, usdcUnits, Usdc)] + TopUpPlan(l, rows, w, fiatUnits, c)
  }

  function FiatSettlementPlan(l: Ledger, merchant: Wallet, amount: nat, c: Currency, country: Currency): seq<Tx> {
    if Balance(l, merchant, c) < amount then []
    else [Debit(merchant, amount, c), Sweep(amount, country)]
  }

  function OnchainSettlementPlan(l: Ledger, merchant: Wallet, to: Wallet, amount: nat, c: Currency): seq<Tx> {
    if Balance(l, merchant, c) < amount then [] else [Withdraw(merchant, to, amount, c)]
  }

  /** The fee legs are sent only for a positive fee. */
  function WithdrawalPlan(l: Ledger, p: Platform, from: Wallet, to: Wallet, gross: nat, fee: nat): seq<Tx>
  {
    if Balance(l, from, Usdc) < gross || gross < fee || Get(l.inventory, Usdc) < gross - fee then []
    else [Withdraw(from, to, gross - fee, Usdc)]
         + (if fee > 0 then [Debit(from, fee, Usdc), Credit(p.treasury, fee, Usdc)] else [])
  }

  function PlanOf(r: Request, l: Ledger, rows: seq<Wallet>, p: Platform): seq<Tx> {
    match r
    case CashIn(w, a, c) => CashInPlan(w, a, c)
    case FiatToUsd(w, f, u, c) => FiatToUsdPlan(l, w, f, u, c)
    case UsdToFiat(w, u, f, c) => UsdToFiatPlan(l, rows, w, u, f, c)
    case ChangeVoucher(m, w, a, c) => VoucherPlan(l, rows, m, w, a, c)
    case EscrowRelease(to, a, c) => ReleasePlan(p, to, a, c)
    case FiatSettlement(m, a, c, h) => FiatSettlementPlan(l, m, a, c, h)
    case OnchainSettlement(m, to, a, c) => OnchainSettlementPlan(l, m, to, a, c)
    case Withdrawal(from, to, g, f) => WithdrawalPlan(l, p, from, to, g, f)
  }

  /** Requests that mint only the shortfall against the float they read on entry. */
  predicate ReadsFloat(r: Request, l: Ledger) {
    r.UsdToFiat? || (r.ChangeVoucher? && Balance(l, r.merchant, r.currency) < r.amount)
  }

  /** A FIAT settlement in the merchant country's own currency. */
  predicate HomeCurrency(r: Request) {
    r.FiatSettlement? ==> r.currency == r.country
  }

  // ---- What each plan needs ----

  /** No currency's treasury backing can fall while the plan runs. */
  ghost predicate NeverNeeds(plan: seq<Tx>) {
    forall c :: Need(plan, c, false) == 0
  }

  ghost predicate KeepsMargins(before: Ledger, after: Ledger) {
    forall c :: Margin(after, c, false) >= Margin(before, c, false)
  }

  lemma Need2(a: Tx, b: Tx, c: Currency, inventory: bool)
    ensures Need([a, b], c, inventory)
         == Max(0, Max(0, 0 - Effect(b, c, inventory)) - Effect(a, c, inventory))
    ensures Need([a], c, inventory) == Max(0, 0 - Effect(a, c, inventory))
  {
    assert [a, b][1..] == [b];
    assert [b][1..] == [] && [a][1..] == [];
    assert Need([b], c, inventory) == Max(0, 0 - Effect(b, c, inventory));
  }

  lemma {:induction false} NeedAppend(first: seq<Tx>, second: seq<Tx>, c: Currency, inventory: bool)
    requires Need(second, c, inventory) == 0
    ensures Need(first + second, c, inventory) == Need(first, c, inventory)
  {
    if first == [] {
      assert first + second == second;
    } else {
      assert (first + second)[1..] == first[1..] + second;
      NeedAppend(first[1..], second, c, inventory);
    }
  }

  /** Destroy before create: a release, a home-currency settlement and a withdrawal
      never lower the reserve-minus-claims margin of any currency, wherever they stop. */
  lemma DestroyBeforeCreate(r: Request, l: Ledger, rows: seq<Wallet>, p: Platform, fuel: nat, c: Currency)
    requires r.EscrowRelease? || r.FiatSettlement? || r.Withdrawal? || r.OnchainSettlement? || r.CashIn?
    requires HomeCurrency(r)
    ensures Need(PlanOf(r, l, rows, p), c, true) == 0
    ensures Need(PlanOf(r, l, rows, p), c, false) == 0
    ensures Margin(Run(l, PlanOf(r, l, rows, p), fuel).ledger, c, true) >= Margin(l, c, true)
    ensures Margin(Run(l, PlanOf(r, l, rows, p), fuel).ledger, c, false) >= Margin(l, c, false)
  {
    var plan := PlanOf(r, l, rows, p);
    SafePlan(r, l, rows, p, c, true);
    SafePlan(r, l, rows, p, c, false);
    RunMargin(l, plan, fuel, c, true);
    RunMargin(l, plan, fuel, c, false);
  }

  lemma SafePlan(r: Request, l: Ledger, rows: seq<Wallet>, p: Platform, c: Currency, inventory: bool)
    requires r.EscrowRelease? || r.FiatSettlement? || r.Withdrawal? || r.OnchainSettlement? || r.CashIn?
    requires HomeCurrency(r)
    ensures Need(PlanOf(r, l, rows, p), c, inventory) == 0
  {
    match r
    case CashIn(w, a, x) => Need2(Mint(a, x), Credit(w, a, x), c, inventory);
    case EscrowRelease(to, a, x) => Need2(Debit(p.escrow, a, x), Credit(to, a, x), c, inventory);
    case FiatSettlement(m, a, x, h) => Need2(Debit(m, a, x), Sweep(a, h), c, inventory);
    case OnchainSettlement(m, to, a, x) => Need2(Withdraw(m, to, a, x), Withdraw(m, to, a, x), c, inventory);
    case Withdrawal(from, to, g, f) => WithdrawalSafe(l, p, from, to, g, f, c, inventory);
  }

  lemma WithdrawalSafe(l: Ledger, p: Platform, from: Wallet, to: Wallet, g: nat, f: nat, c: Currency, inventory: bool)
    ensures Need(WithdrawalPlan(l, p, from, to, g, f), c, inventory) == 0
  {
    if WithdrawalPlan(l, p, from, to, g, f) != [] {
      var fees := if f > 0 then [Debit(from, f, Usdc), Credit(p.treasury, f, Usdc)] else [];
      Need2(Debit(from, f, Usdc), Credit(p.treasury, f, Usdc), c, inventory);
      NeedAppend([Withdraw(from, to, g - f, Usdc)], fees, c, inventory);
      Need2(Withdraw(from, to, g - f, Usdc), Debit(from, f, Usdc), c, inventory);
    }
  }

  /** A FIAT settlement that passes its balance check is safe for every currency
      exactly when it sweeps the token of the currency it debited. */
  lemma SettlementNeedsHomeCurrency(l: Ledger, m: Wallet, a: nat, c: Currency, country: Currency)
    requires a > 0 && Balance(l, m, c) >= a
    ensures NeverNeeds(FiatSettlementPlan(l, m, a, c, country)) <==> c == country
    ensures country.Fiat? && Get(l.backing, country) >= a ==>
              (KeepsMargins(l, Run(l, FiatSettlementPlan(l, m, a, c, country), 2).ledger) <==> c == country)
  {
    var plan := FiatSettlementPlan(l, m, a, c, country);
    forall x ensures Need(plan, x, false) == if x == country && c != country then a else 0 {
      Need2(Debit(m, a, c), Sweep(a, country), x, false);
    }
    if c != country {
      assert Need(FiatSettlementPlan(l, m, a, c, country), country, false) == a;
    } else {
      assert forall x :: Need(FiatSettlementPlan(l, m, a, c, country), x, false) == 0;
    }
    if country.Fiat? && Get(l.backing, country) >= a {
      var l1 := Execute(l, plan[0]).value;
      var l2 := Execute(l1, plan[1]).value;
      assert plan[1..] == [plan[1]] && [plan[1]][1..] == [];
      assert Run(l1, [plan[1]], 1).ledger == l2;
      assert Run(l, plan, 2).ledger == l2;
      forall x ensures Margin(l2, x, false)
                    == Margin(l, x, false) + Effect(plan[0], x, false) + Effect(plan[1], x, false) {
        ExecuteMargin(l, plan[0], x, false);
        ExecuteMargin(l1, plan[1], x, false);
      }
      if c != country {
        assert Margin(l2, country, false) == Margin(l, country, false) - a;
      }
    }
  }

  // ---- What a completed plan has done ----

  /** Net change of one claim, of the Vault's treasury tokens and of what an external
      address has received, over a list of transactions. */
  function ClaimStep(tx: Tx, w: Wallet, c: Currency): int {
    if tx.currency != c then 0
    else match tx
      case Credit(u, a, _) => if u == w then a else 0
      case Debit(u, a, _) => if u == w then 0 - a else 0
      case Withdraw(u, _, a, _) => if u == w then 0 - a else 0
      case _ => 0
  }

  function BackingStep(tx: Tx, c: Currency): int {
    if tx.currency != c then 0
    else if tx.Mint? then tx.amount
    else if tx.Sweep? then 0 - tx.amount else 0
  }

  function PaidStep(tx: Tx, to: Wallet, c: Currency): int {
    if tx.Withdraw? && tx.recipient == to && tx.currency == c then tx.amount else 0
  }

  function ClaimDelta(plan: seq<Tx>, w: Wallet, c: Currency): int {
    if plan == [] then 0 else ClaimStep(plan[0], w, c) + ClaimDelta(plan[1..], w, c)
  }

  function BackingDelta(plan: seq<Tx>, c: Currency): int {
    if plan == [] then 0 else BackingStep(plan[0], c) + BackingDelta(plan[1..], c)
  }

  function PaidOut(plan: seq<Tx>, to: Wallet, c: Currency): int {
    if plan == [] then 0 else PaidStep(plan[0], to, c) + PaidOut(plan[1..], to, c)
  }

  lemma {:induction false} RunDeltas(l: Ledger, plan: seq<Tx>, fuel: nat, w: Wallet, c: Currency)
    requires Run(l, plan, fuel).done
    ensures var l' := Run(l, plan, fuel).ledger;
            && Balance(l', w, c) == Balance(l, w, c) + ClaimDelta(plan, w, c)
            && Get(l'.backing, c) == Get(l.backing, c) + BackingDelta(plan, c)
            && Get(l'.external, (c, w)) == Get(l.external, (c, w)) + PaidOut(plan, w, c)
    decreases |plan|
  {
    if plan != [] {
      StepDeltas(l, plan[0], w, c);
      RunDeltas(Execute(l, plan[0]).value, plan[1..], fuel - 1, w, c);
    }
  }

  lemma StepDeltas(l: Ledger, tx: Tx, w: Wallet, c: Currency)
    requires Execute(l, tx).Some?
    ensures Balance(Execute(l, tx).value, w, c) == Balance(l, w, c) + ClaimStep(tx, w, c)
    ensures Get(Execute(l, tx).value.backing, c) == Get(l.backing, c) + BackingStep(tx, c)
    ensures Get(Execute(l, tx).value.external, (c, w)) == Get(l.external, (c, w)) + PaidStep(tx, w, c)
  {
    BalanceStep(l, tx, w, c);
    ReserveStep(l, tx, w, c);
  }

  lemma BalanceStep(l: Ledger, tx: Tx, w: Wallet, c: Currency)
    requires Execute(l, tx).Some?
    ensures Balance(Execute(l, tx).value, w, c) == Balance(l, w, c) + ClaimStep(tx, w, c)
  {
    var l' := Execute(l, tx).value;
    if tx.Mint? || tx.Sweep? {
      assert l'.claims == l.claims;
    } else {
      var held := Balance(l, Payer(tx), tx.currency);
      var v := if tx.Credit? then held + tx.amount else held - tx.amount;
      SetThenRead(l, Payer(tx), tx.currency, v, w, c);
      assert l'.claims == SetBalance(l, Payer(tx), tx.currency, v).claims;
    }
  }

  lemma ReserveStep(l: Ledger, tx: Tx, w: Wallet, c: Currency)
    requires Execute(l, tx).Some?
    ensures Get(Execute(l, tx).value.backing, c) == Get(l.backing, c) + BackingStep(tx, c)
    ensures Get(Execute(l, tx).value.external, (c, w)) == Get(l.external, (c, w)) + PaidStep(tx, w, c)
  {
  }

  lemma SetThenRead(l: Ledger, u: Wallet, x: Currency, v: nat, w: Wallet, c: Currency)
    ensures Balance(SetBalance(l, u, x, v), w, c) == if u == w && x == c then v else Balance(l, w, c)
  {
  }

  /** On completion the sender has lost exactly the gross amount, the destination has
      gained the net and the treasury the fee; nobody else has moved. */
  lemma WithdrawalCompletes(l: Ledger, p: Platform, from: Wallet, to: Wallet, gross: nat, fee: nat, fuel: nat)
    requires WithdrawalPlan(l, p, from, to, gross, fee) != []
    requires Run(l, WithdrawalPlan(l, p, from, to, gross, fee), fuel).done
    ensures var l' := Run(l, WithdrawalPlan(l, p, from, to, gross, fee), fuel).ledger;
            && (forall w :: Balance(l', w, Usdc) == Balance(l, w, Usdc)
                  - (if w == from then gross else 0) + (if w == p.treasury then fee else 0))
            && (forall w, c :: c != Usdc ==> Balance(l', w, c) == Balance(l, w, c))
            && (forall w, c :: Get(l'.external, (c, w)) == Get(l.external, (c, w))
                  + (if w == to && c == Usdc then gross - fee else 0))
            && (forall c :: Get(l'.backing, c) == Get(l.backing, c))
  {
    var plan := WithdrawalPlan(l, p, from, to, gross, fee);
    var first := Withdraw(from, to, gross - fee, Usdc);
    forall w, c
      ensures ClaimDelta(plan, w, c) == if c != Usdc then 0
              else (if w == p.treasury then fee else 0) - (if w == from then gross else 0)
      ensures BackingDelta(plan, c) == 0
      ensures PaidOut(plan, w, c) == if w == to && c == Usdc then gross - fee else 0
    {
      if fee > 0 {
        Deltas3(first, Debit(from, fee, Usdc), Credit(p.treasury, fee, Usdc), w, c);
        assert plan == [first, Debit(from, fee, Usdc), Credit(p.treasury, fee, Usdc)];
      } else {
        assert plan == [first];
        Deltas3(first, first, first, w, c);
      }
    }
    forall w, c ensures var l' := Run(l, plan, fuel).ledger;
            && Balance(l', w, c) == Balance(l, w, c) + ClaimDelta(plan, w, c)
            && Get(l'.backing, c) == Get(l.backing, c)
            && Get(l'.external, (c, w)) == Get(l.external, (c, w)) + PaidOut(plan, w, c) {
      RunDeltas(l, plan, fuel, w, c);
    }
    forall c ensures Get(Run(l, plan, fuel).ledger.backing, c) == Get(l.backing, c) {
      RunDeltas(l, plan, fuel, from, c);
      assert BackingDelta(plan, c) == 0;
    }
  }

  lemma Deltas3(x: Tx, y: Tx, z: Tx, w: Wallet, c: Currency)
    ensures ClaimDelta([x], w, c) + ClaimDelta([y], w, c) == ClaimDelta([x, y], w, c)
    ensures ClaimDelta([x, y], w, c) + ClaimDelta([z], w, c) == ClaimDelta([x, y, z], w, c)
    ensures BackingDelta([x], c) + BackingDelta([y], c) == BackingDelta([x, y], c)
    ensures BackingDelta([x, y], c) + BackingDelta([z], c) == BackingDelta([x, y, z], c)
    ensures PaidOut([x], w, c) + PaidOut([y], w, c) == PaidOut([x, y], w, c)
    ensures PaidOut([x, y], w, c) + PaidOut([z], w, c) == PaidOut([x, y, z], w, c)
  {
    assert [x][1..] == [] && [y][1..] == [] && [z][1..] == [];
    assert [x, y][1..] == [y] && [y, z][1..] == [z] && [x, y, z][1..] == [y, z];
    assert ClaimDelta([y, z], w, c) == ClaimDelta([y], w, c) + ClaimDelta([z], w, c);
    assert BackingDelta([y, z], c) == BackingDelta([y], c) + BackingDelta([z], c);
    assert PaidOut([y, z], w, c) == PaidOut([y], w, c) + PaidOut([z], w, c);
  }

  /** The two to four legs of a voucher: mint, top-up, debit, credit. */
  lemma VoucherDeltas(plan: seq<Tx>, m: Wallet, w: Wallet, a: nat, short: nat, mint: nat, c: Currency,
                      u: Wallet, x: Currency)
    requires plan == (if short == 0 then [] else (if mint == 0 then [] else [Mint(mint, c)]) + [Credit(m, short, c)])
                     + [Debit(m, a, c), Credit(w, a, c)]
    requires short == 0 ==> mint == 0
    ensures ClaimDelta(plan, u, x) == if x != c then 0
            else (if u == m then short - a else 0) + (if u == w then a else 0)
    ensures BackingDelta(plan, x) == if x == c then mint else 0
  {
    var mi, cr, de, pay := Mint(mint, c), Credit(m, short, c), Debit(m, a, c), Credit(w, a, c);
    Deltas3(cr, de, pay, u, x);
    Deltas3(de, pay, pay, u, x);
    if mint > 0 {
      assert plan == [mi, cr, de, pay];
      assert plan[1..] == [cr, de, pay];
    } else if short > 0 {
      assert plan == [cr, de, pay];
    } else {
      assert plan == [de, pay];
    }
  }

  /** A change voucher pays the consumer in full: the merchant's own claim pays what it
      can, and the treasury issues no more than the merchant was short. A merchant who
      redeems a voucher of its own is left with what it was short. */
  lemma VoucherCompletes(l: Ledger, rows: seq<Wallet>, m: Wallet, w: Wallet, a: nat, c: Currency, fuel: nat)
    requires Run(l, VoucherPlan(l, rows, m, w, a, c), fuel).done
    ensures var l' := Run(l, VoucherPlan(l, rows, m, w, a, c), fuel).ledger;
            var short := if Balance(l, m, c) < a then a - Balance(l, m, c) else 0;
            && (forall u, x :: Balance(l', u, x)
                            == Balance(l, u, x) + if x != c then 0 else VoucherShare(u, m, w, a, short))
            && (forall x :: x != c ==> Get(l'.backing, x) == Get(l.backing, x))
            && Get(l.backing, c) <= Get(l'.backing, c) <= Get(l.backing, c) + short
  {
    var plan := VoucherPlan(l, rows, m, w, a, c);
    var short := if Balance(l, m, c) < a then a - Balance(l, m, c) else 0;
    var mint := if short > 0 then MintNeeded(l, rows, short, c) else 0;
    forall u, x ensures Balance(Run(l, plan, fuel).ledger, u, x)
                     == Balance(l, u, x) + if x != c then 0 else VoucherShare(u, m, w, a, short) {
      VoucherDeltas(plan, m, w, a, short, mint, c, u, x);
      RunDeltas(l, plan, fuel, u, x);
    }
    forall x ensures Get(Run(l, plan, fuel).ledger.backing, x) == Get(l.backing, x) + if x == c then mint else 0 {
      VoucherDeltas(plan, m, w, a, short, mint, c, m, x);
      RunDeltas(l, plan, fuel, m, x);
    }
  }

  /** What a voucher changes in one claim of its currency. */
  function VoucherShare(u: Wallet, m: Wallet, w: Wallet, a: nat, short: nat): int {
    (if u == m then short - a else 0) + (if u == w then a else 0)
  }

  /** A completed two-leg plan has done exactly its two legs. */
  lemma ReleaseCompletes(l: Ledger, p: Platform, to: Wallet, a: nat, c: Currency, fuel: nat)
    requires Run(l, ReleasePlan(p, to, a, c), fuel).done
    ensures var l' := Run(l, ReleasePlan(p, to, a, c), fuel).ledger;
            && l'.backing == l.backing && l'.inventory == l.inventory && l'.external == l.external
            && (forall w, x :: Balance(l', w, x) == Balance(l, w, x)
                  + (if w == to && x == c then a else 0) - (if w == p.escrow && x == c then a else 0))
  {
    assert ReleasePlan(p, to, a, c)[1..] == [Credit(to, a, c)];
    assert [Credit(to, a, c)][1..] == [];
    var l1 := Execute(l, Debit(p.escrow, a, c)).value;
    assert Run(l, ReleasePlan(p, to, a, c), fuel) == Run(l1, [Credit(to, a, c)], fuel - 1);
    assert Run(l1, [Credit(to, a, c)], fuel - 1).ledger == Execute(l1, Credit(to, a, c)).value;
  }

  lemma FiatSettlementCompletes(l: Ledger, m: Wallet, a: nat, c: Currency, country: Currency, fuel: nat)
    requires FiatSettlementPlan(l, m, a, c, country) != []
    requires Run(l, FiatSettlementPlan(l, m, a, c, country), fuel).done
    ensures var l' := Run(l, FiatSettlementPlan(l, m, a, c, country), fuel).ledger;
            && (forall w, x :: Balance(l', w, x) == Balance(l, w, x) - (if w == m && x == c then a else 0))
            && (forall x :: Get(l'.backing, x) == Get(l.backing, x) - (if x == country then a else 0))
            && l'.inventory == l.inventory && l'.external == l.external
  {
    var plan := FiatSettlementPlan(l, m, a, c, country);
    assert plan[1..] == [Sweep(a, country)];
    assert [Sweep(a, country)][1..] == [];
    var l1 := Execute(l, plan[0]).value;
    assert Run(l, plan, fuel) == Run(l1, [Sweep(a, country)], fuel - 1);
    assert Run(l1, [Sweep(a, country)], fuel - 1).ledger == Execute(l1, Sweep(a, country)).value;
  }

  lemma OnchainSettlementCompletes(l: Ledger, m: Wallet, to: Wallet, a: nat, c: Currency, fuel: nat)
    requires OnchainSettlementPlan(l, m, to, a, c) != []
    requires Run(l, OnchainSettlementPlan(l, m, to, a, c), fuel).done
    ensures var l' := Run(l, OnchainSettlementPlan(l, m, to, a, c), fuel).ledger;
            && (forall w, x :: Balance(l', w, x) == Balance(l, w, x) - (if w == m && x == c then a else 0))
            && (forall x :: Get(l'.inventory, x) == Get(l.inventory, x) - (if x == c then a else 0))
            && (forall w, x :: Get(l'.external, (x, w))
                            == Get(l.external, (x, w)) + (if w == to && x == c then a else 0))
            && l'.backing == l.backing
  {
    var tx := Withdraw(m, to, a, c);
    assert [tx][1..] == [];
    assert Run(l, [tx], fuel).ledger == Execute(l, tx).value;
  }

  /** A finished sale of fiat took exactly the fiat, gave exactly the USDC and touched no
      reserve. */
  lemma FiatToUsdCompletes(l: Ledger, w: Wallet, f: nat, u: nat, c: Currency, fuel: nat)
    requires c.Fiat? && FiatToUsdPlan(l, w, f, u, c) != []
    requires Run(l, FiatToUsdPlan(l, w, f, u, c), fuel).done
    ensures var l' := Run(l, FiatToUsdPlan(l, w, f, u, c), fuel).ledger;
            && (forall v, x :: Balance(l', v, x) == Balance(l, v, x)
                  - (if v == w && x == c then f else 0) + (if v == w && x == Usdc then u else 0))
            && l'.backing == l.backing && l'.inventory == l.inventory && l'.external == l.external
  {
    var plan := FiatToUsdPlan(l, w, f, u, c);
    assert plan[1..] == [Credit(w, u, Usdc)];
    assert [Credit(w, u, Usdc)][1..] == [];
    var l1 := Execute(l, plan[0]).value;
    assert Run(l, plan, fuel) == Run(l1, [Credit(w, u, Usdc)], fuel - 1);
    assert Run(l1, [Credit(w, u, Usdc)], fuel - 1).ledger == Execute(l1, Credit(w, u, Usdc)).value;
  }

  /** A finished cash-in issued the amount and credited it, and changed nothing else. */
  lemma CashInCompletes(l: Ledger, w: Wallet, a: nat, c: Currency, fuel: nat)
    requires Run(l, CashInPlan(w, a, c), fuel).done
    ensures var l' := Run(l, CashInPlan(w, a, c), fuel).ledger;
            && (forall v, x :: Balance(l', v, x) == Balance(l, v, x) + (if v == w && x == c then a else 0))
            && (forall x :: Get(l'.backing, x) == Get(l.backing, x) + (if x == c then a else 0))
            && l'.inventory == l.inventory && l'.external == l.external
  {
    var plan := CashInPlan(w, a, c);
    assert plan[1..] == [Credit(w, a, c)];
    assert [Credit(w, a, c)][1..] == [];
    var l1 := Execute(l, plan[0]).value;
    assert Run(l, plan, fuel) == Run(l1, [Credit(w, a, c)], fuel - 1);
    assert Run(l1, [Credit(w, a, c)], fuel - 1).ledger == Execute(l1, Credit(w, a, c)).value;
  }

  // ---- When a plan lands ----

  lemma Lands(l: Ledger, tx: Tx, rest: seq<Tx>, fuel: nat)
    requires fuel >= 1 && Execute(l, tx).Some? && Run(Execute(l, tx).value, rest, fuel - 1).done
    ensures Run(l, [tx] + rest, fuel).done
  {
    assert ([tx] + rest)[1..] == rest;
  }

  lemma LandsTwo(l: Ledger, a: Tx, b: Tx, fuel: nat)
    requires fuel >= 2 && Execute(l, a).Some? && Execute(Execute(l, a).value, b).Some?
    ensures Run(l, [a, b], fuel).done
  {
    RunOne(Execute(l, a).value, b, fuel - 1);
    Lands(l, a, [b], fuel);
    assert [a] + [b] == [a, b];
  }

  lemma TopUpLands(l: Ledger, rows: seq<Wallet>, k: Ledger, w: Wallet, a: nat, c: Currency, fuel: nat)
    requires a > 0 && c.Fiat? && fuel >= 2
    ensures Run(k, TopUpPlan(l, rows, w, a, c), fuel).done
  {
    var m := MintNeeded(l, rows, a, c);
    RunOne(k, Credit(w, a, c), fuel);
    if m > 0 {
      LandsTwo(k, Mint(m, c), Credit(w, a, c), fuel);
      assert TopUpPlan(l, rows, w, a, c) == [Mint(m, c), Credit(w, a, c)];
    } else {
      assert TopUpPlan(l, rows, w, a, c) == [Credit(w, a, c)];
    }
  }

  lemma PurchaseLands(l: Ledger, rows: seq<Wallet>, w: Wallet, u: nat, f: nat, c: Currency, fuel: nat)
    requires 0 < u <= Balance(l, w, Usdc) && f > 0 && c.Fiat? && fuel >= 3
    ensures Run(l, UsdToFiatPlan(l, rows, w, u, f, c), fuel).done
  {
    var debit := Debit(w, u, Usdc);
    TopUpLands(l, rows, Execute(l, debit).value, w, f, c, fuel - 1);
    Lands(l, debit, TopUpPlan(l, rows, w, f, c), fuel);
  }

  lemma VoucherLands(l: Ledger, rows: seq<Wallet>, m: Wallet, w: Wallet, a: nat, c: Currency, fuel: nat)
    requires a > 0 && (c.Fiat? || Balance(l, m, c) >= a) && fuel >= 4
    ensures Run(l, VoucherPlan(l, rows, m, w, a, c), fuel).done
  {
    var top, pay := ShortfallPlan(l, rows, m, a, c), [Debit(m, a, c), Credit(w, a, c)];
    RunAppend(l, top, pay, fuel);
    ShortfallGives(l, rows, m, a, c, fuel);
    var o := Run(l, top, fuel);
    LandsTwo(o.ledger, Debit(m, a, c), Credit(w, a, c), o.fuel);
  }

  lemma ShortfallGives(l: Ledger, rows: seq<Wallet>, m: Wallet, a: nat, c: Currency, fuel: nat)
    requires a > 0 && (c.Fiat? || Balance(l, m, c) >= a) && fuel >= 4
    ensures var o := Run(l, ShortfallPlan(l, rows, m, a, c), fuel);
            o.done && o.fuel >= 2 && Balance(o.ledger, m, c) >= a
  {
    var held := Balance(l, m, c);
    if held < a {
      TopUpGives(l, rows, m, a - held, c, fuel);
      assert ShortfallPlan(l, rows, m, a, c) == TopUpPlan(l, rows, m, a - held, c);
    } else {
      assert ShortfallPlan(l, rows, m, a, c) == [];
    }
  }

  lemma TopUpGives(l: Ledger, rows: seq<Wallet>, m: Wallet, a: nat, c: Currency, fuel: nat)
    requires a > 0 && c.Fiat? && fuel >= 4
    ensures var o := Run(l, TopUpPlan(l, rows, m, a, c), fuel);
            o.done && o.fuel >= fuel - 2 && Balance(o.ledger, m, c) == Balance(l, m, c) + a
  {
    var n := MintNeeded(l, rows, a, c);
    var credit := Credit(m, a, c);
    RunOne(l, credit, fuel);
    if n > 0 {
      assert TopUpPlan(l, rows, m, a, c) == [Mint(n, c)] + [credit];
      assert TopUpPlan(l, rows, m, a, c)[1..] == [credit];
      RunOne(Execute(l, Mint(n, c)).value, credit, fuel - 1);
    } else {
      assert TopUpPlan(l, rows, m, a, c) == [credit];
    }
  }

  lemma WithdrawalLands(l: Ledger, p: Platform, from: Wallet, to: Wallet, gross: nat, fee: nat, fuel: nat)
    requires fee < gross <= Balance(l, from, Usdc) && gross - fee <= Get(l.inventory, Usdc) && fuel >= 3
    ensures Run(l, WithdrawalPlan(l, p, from, to, gross, fee), fuel).done
  {
    var first := Withdraw(from, to, gross - fee, Usdc);
    var fees := if fee > 0 then [Debit(from, fee, Usdc), Credit(p.treasury, fee, Usdc)] else [];
    var k := Execute(l, first).value;
    BalanceStep(l, first, from, Usdc);
    if fee > 0 {
      LandsTwo(k, Debit(from, fee, Usdc), Credit(p.treasury, fee, Usdc), fuel - 1);
    }
    Lands(l, first, fees, fuel);
  }

  lemma PurchaseDeltas(plan: seq<Tx>, w: Wallet, u: nat, f: nat, mint: nat, c: Currency, v: Wallet, x: Currency)
    requires c.Fiat?
    requires plan == [Debit(w, u, Usdc)] + ((if mint > 0 then [Mint(mint, c)] else []) + [Credit(w, f, c)])
    ensures ClaimDelta(plan, v, x) == if v != w then 0 else if x == c then f else if x == Usdc then 0 - u else 0
    ensures BackingDelta(plan, x) == if x == c then mint else 0
  {
    var de, mi, cr := Debit(w, u, Usdc), Mint(mint, c), Credit(w, f, c);
    Deltas3(de, mi, cr, v, x);
    Deltas3(de, cr, cr, v, x);
    if mint > 0 {
      assert plan == [de, mi, cr];
    } else {
      assert plan == [de, cr];
    }
  }

  /** A finished purchase of fiat took exactly the USDC, gave exactly the fiat, and the
      treasury issued only what the float was short. */
  lemma UsdToFiatCompletes(l: Ledger, rows: seq<Wallet>, w: Wallet, u: nat, f: nat, c: Currency, fuel: nat)
    requires c.Fiat? && UsdToFiatPlan(l, rows, w, u, f, c) != []
    requires Run(l, UsdToFiatPlan(l, rows, w, u, f, c), fuel).done
    ensures var l' := Run(l, UsdToFiatPlan(l, rows, w, u, f, c), fuel).ledger;
            && (forall v, x :: Balance(l', v, x) == Balance(l, v, x)
                  - (if v == w && x == Usdc then u else 0) + (if v == w && x == c then f else 0))
            && (forall x :: Get(l'.backing, x) == Get(l.backing, x) + (if x == c then MintNeeded(l, rows, f, c) else 0))
            && MintNeeded(l, rows, f, c) <= f
  {
    var plan := UsdToFiatPlan(l, rows, w, u, f, c);
    forall v, x ensures Balance(Run(l, plan, fuel).ledger, v, x) == Balance(l, v, x)
                  - (if v == w && x == Usdc then u else 0) + (if v == w && x == c then f else 0) {
      PurchaseDeltas(plan, w, u, f, MintNeeded(l, rows, f, c), c, v, x);
      RunDeltas(l, plan, fuel, v, x);
    }
    forall x ensures Get(Run(l, plan, fuel).ledger.backing, x)
                  == Get(l.backing, x) + (if x == c then MintNeeded(l, rows, f, c) else 0) {
      PurchaseDeltas(plan, w, u, f, MintNeeded(l, rows, f, c), c, w, x);
      RunDeltas(l, plan, fuel, w, x);
    }
  }
}
