/** changeVoucherService.ts: change vouchers, redeemed by secret or sent to a tag. Rows are
    keyed by the secret; the stored key is its hash, taken to be injective. */
module Vouchers {
  import opened Wrappers
  import opened Vault
  import opened Flows
  import opened Handlers

  // ---- The product a voucher may be issued for ----

  /** Prices are in hundredths of the currency's unit. */
  datatype Product = Product(isVoucher: bool, currency: Currency, isFixedPrice: bool,
                             price: Option<int>, min: Option<int>, max: Option<int>)

  /** What a product id, if one was given, leads to among the merchant's active products. */
  datatype Lookup = NotAsked | Absent | Found(product: Product)

  datatype ProductError =
    | ProductNotFound | NotAVoucher | WrongCurrency | NotTheDenomination | BelowMinimum | AboveMaximum

  /** An amount of ledger units, and a price, in whole units of the currency. */
  function Major(units: nat, c: Currency): real {
    units as real / if c.Usdc? then 1000000.0 else 100.0
  }

  function PriceMajor(price: int): real {
    price as real / 100.0
  }

  /** Unit price and both limits agree: the product has one amount only. */
  predicate ExactDenomination(p: Product) {
    p.isFixedPrice && p.price.Some? && p.price == p.min && p.min == p.max
  }

  function ValidateProduct(found: Lookup, units: nat, c: Currency): Option<ProductError> {
    match found
    case NotAsked => None
    case Absent => Some(ProductNotFound)
    case Found(p) =>
      var amount := Major(units, c);
      if !p.isVoucher then Some(NotAVoucher)
      else if p.currency != c then Some(WrongCurrency)
      else if ExactDenomination(p) && amount != PriceMajor(p.price.value) then Some(NotTheDenomination)
      else if p.min.Some? && amount < PriceMajor(p.min.value) then Some(BelowMinimum)
      else if p.max.Some? && amount > PriceMajor(p.max.value) then Some(AboveMaximum)
      else None
  }

  /** Without a product id every amount is admitted; with one, the product must be an active
      voucher of the merchant in the currency. A true denomination then admits its price
      alone; any other product every amount from its minimum to its maximum, and its unit
      price plays no part. */
  lemma AdmittedAmounts(found: Lookup, units: nat, c: Currency)
    ensures ValidateProduct(NotAsked, units, c) == None
    ensures ValidateProduct(Absent, units, c) == Some(ProductNotFound)
    ensures found.Found? ==>
              var p, error := found.product, ValidateProduct(found, units, c);
              var amount := units as real / if c.Usdc? then 1000000.0 else 100.0;
              var only := p.isFixedPrice && p.price.Some? && p.min == p.price && p.max == p.price;
              && (error == Some(NotAVoucher) <==> !p.isVoucher)
              && (error == Some(WrongCurrency) <==> p.isVoucher && p.currency != c)
              && (p.isVoucher && p.currency == c ==>
                    && (error.None? <==>
                          if only then amount * 100.0 == p.price.value as real
                          else (p.min.Some? ==> p.min.value as real <= amount * 100.0)
                               && (p.max.Some? ==> amount * 100.0 <= p.max.value as real))
                    && (error == Some(NotTheDenomination) <==> only && amount * 100.0 != p.price.value as real)
                    && (error == Some(BelowMinimum) <==>
                          !only && p.min.Some? && amount * 100.0 < p.min.value as real))
  {
  }

  // ---- The rows ----

  datatype VoucherStatus = Pending | Claimed | Expired | Cancelled

  datatype Voucher = Voucher(merchant: Option<Wallet>, amount: nat, currency: Currency, status: VoucherStatus,
                             recipient: Option<Wallet>, expires: int)

  datatype Redeemed = NotFound | AlreadyClaimed | NoLongerValid | HasExpired | NoMerchantWallet | TxFailed | Done

  datatype Issued = NotPositive | BadProduct(error: ProductError) | NotPaid | Stored

  const TTL := 15 * 60 * 1000

  /** Why a redemption of the row found sends nothing, if it does not. */
  function RowRefusal(row: Option<Voucher>, now: int): Option<Redeemed> {
    match row
    case None => Some(NotFound)
    case Some(v) =>
      if v.status == Claimed then Some(AlreadyClaimed)
      else if v.status != Pending then Some(NoLongerValid)
      else if v.expires < now then Some(HasExpired)
      else if v.merchant.None? then Some(NoMerchantWallet)
      else None
  }

  function Refusal(rows: map<string, Voucher>, secret: string, now: int): Option<Redeemed> {
    RowRefusal(if secret in rows then Some(rows[secret]) else None, now)
  }

  function IssueRefusal(amount: nat, found: Lookup, c: Currency): Option<Issued> {
    if amount == 0 then Some(NotPositive)
    else if ValidateProduct(found, amount, c).Some? then Some(BadProduct(ValidateProduct(found, amount, c).value))
    else None
  }

  class ChangeVouchers {
    const backend: Backend
    var rows: map<string, Voucher>

    constructor (b: Backend)
      ensures backend == b && rows == map[]
    {
      backend, rows := b, map[];
    }

    /** A prepared voucher can be redeemed by anyone with its secret for fifteen minutes, in
        milliseconds, and is expired from then on; no other voucher is touched and no money
        moves. */
    method PrepareChangeVoucher(secret: string, merchant: Wallet, amount: nat, found: Lookup, c: Currency, now: int)
      returns (r: Issued)
      requires secret !in rows
      modifies this
      ensures r == if IssueRefusal(amount, found, c).Some? then IssueRefusal(amount, found, c).value else Stored
      ensures r != Stored ==> rows == old(rows)
      ensures r == Stored ==>
                && secret in rows && rows - {secret} == old(rows)
                && (forall t :: Refusal(rows, secret, t) == if t > now + 900000 then Some(HasExpired) else None)
                && rows[secret].merchant == Some(merchant)
                && rows[secret].amount == amount && rows[secret].currency == c
    {
      if amount == 0 {
        return NotPositive;
      }
      var error := ValidateProduct(found, amount, c);
      if error.Some? {
        return BadProduct(error.value);
      }
      ghost var before := rows;
      rows := rows[secret := Voucher(Some(merchant), amount, c, Pending, None, now + TTL)];
      assert rows - {secret} == before;
      return Stored;
    }

    /** A redemption fails a check and moves nothing, marking at most an expired voucher as
        such; or it sends the voucher's plan, and when all of it landed and the process lived
        on, the consumer has gained the amount, the merchant has paid what it held of it, the
        treasury has issued at most the rest, and the voucher refuses every later redemption. */
    method RedeemChangeVoucher(secret: string, consumer: Wallet, now: int) returns (r: Redeemed)
      modifies this, backend.treasury
      ensures Refusal(old(rows), secret, now).Some? ==>
                r == Refusal(old(rows), secret, now).value && unchanged(backend.treasury)
      ensures Refusal(old(rows), secret, now).None? ==>
                && (r == TxFailed || r == Done)
                && var v, was := old(rows)[secret], old(backend.treasury.ledger);
                   var o := Run(was, VoucherPlan(was, old(backend.Rows()), v.merchant.value, consumer, v.amount,
                                                 v.currency), old(backend.treasury.fuel));
                && backend.treasury.ledger == o.ledger && backend.treasury.fuel == o.fuel
                && (r == Done <==> o.done && o.fuel > 0)
      ensures r != HasExpired && r != Done ==> rows == old(rows)
      ensures r == HasExpired || r == Done ==>
                var status := if r == Done then Claimed else Expired;
                && secret in rows && rows - {secret} == old(rows) - {secret}
                && rows[secret].status == status && (r == Done ==> rows[secret].recipient == Some(consumer))
                && forall t :: Refusal(rows, secret, t) == Some(if r == Done then AlreadyClaimed else NoLongerValid)
      ensures r == Done ==>
                var v, was, l := old(rows)[secret], old(backend.treasury.ledger), backend.treasury.ledger;
                var m, held := v.merchant.value, Balance(was, v.merchant.value, v.currency);
                var short := if held < v.amount then v.amount - held else 0;
                && (forall u, x :: Balance(l, u, x) == Balance(was, u, x)
                      + if x != v.currency then 0 else VoucherShare(u, m, consumer, v.amount, short))
                && Get(l.backing, v.currency) <= Get(was.backing, v.currency) + short
    {
      if secret !in rows {
        return NotFound;
      }
      var v := rows[secret];
      if v.status == Claimed {
        return AlreadyClaimed;
      }
      if v.status != Pending {
        return NoLongerValid;
      }
      if v.expires < now {
        rows := rows[secret := v.(status := Expired)];
        return HasExpired;
      }
      if v.merchant.None? {
        return NoMerchantWallet;
      }
      ghost var was, fuel, owners := backend.treasury.ledger, backend.treasury.fuel, backend.Rows();
      var ok := backend.ExecuteTransfer(v.merchant.value, consumer, v.amount, v.currency);
      if !ok || backend.treasury.fuel == 0 {
        return TxFailed;
      }
      VoucherCompletes(was, owners, v.merchant.value, consumer, v.amount, v.currency, fuel);
      rows := rows[secret := v.(status := Claimed, recipient := Some(consumer))];
      return Done;
    }

    /** A voucher sent to a tag passes the same checks, is paid first and stored as claimed,
        so nobody can redeem it; or it is not stored at all. */
    method SendChangeVoucherToTag(secret: string, merchant: Wallet, recipient: Wallet, amount: nat, found: Lookup,
                                  c: Currency, now: int)
      returns (r: Issued)
      requires secret !in rows
      modifies this, backend.treasury
      ensures IssueRefusal(amount, found, c).Some? ==>
                r == IssueRefusal(amount, found, c).value && unchanged(backend.treasury)
      ensures IssueRefusal(amount, found, c).None? ==>
                && (r == NotPaid || r == Stored)
                && var was := old(backend.treasury.ledger);
                   var o := Run(was, VoucherPlan(was, old(backend.Rows()), merchant, recipient, amount, c),
                                old(backend.treasury.fuel));
                && backend.treasury.ledger == o.ledger && backend.treasury.fuel == o.fuel
                && (r == Stored <==> o.done && o.fuel > 0)
      ensures r != Stored ==> rows == old(rows)
      ensures r == Stored ==>
                && secret in rows && rows - {secret} == old(rows)
                && rows[secret].recipient == Some(recipient) && rows[secret].amount == amount
                && forall t :: Refusal(rows, secret, t) == Some(AlreadyClaimed)
    {
      if amount == 0 {
        return NotPositive;
      }
      var error := ValidateProduct(found, amount, c);
      if error.Some? {
        return BadProduct(error.value);
      }
      var ok := backend.ExecuteTransfer(merchant, recipient, amount, c);
      if !ok || backend.treasury.fuel == 0 {
        return NotPaid;
      }
      ghost var before := rows;
      rows := rows[secret := Voucher(Some(merchant), amount, c, Claimed, Some(recipient), now)];
      assert rows - {secret} == before;
      return Stored;
    }
  }
}
