/** escrowService.ts: redeem and reclaim as the server runs them. Rows are keyed by the
    claim secret; the stored key is its hash, taken to be injective. */
module EscrowService {
  import opened Wrappers
  import opened Sums
  import opened Vault
  import opened Flows
  import opened Handlers

  datatype ClaimStatus = Pending | Claimed(claimant: Wallet) | Reclaimed

  datatype ClaimRow = ClaimRow(
    sender: Wallet, phone: string, amount: nat, currency: Currency, status: ClaimStatus, expires: int)

  datatype RedeemResult = NotFound | Already(status: ClaimStatus) | Expired | WrongPhone | TxFailed | Released

  const TTL := 7 * 24 * 60 * 60 * 1000

  /** Why a redemption sends nothing, if it does not. */
  function Refusal(rows: map<string, ClaimRow>, secret: string, phone: string, now: int): Option<RedeemResult> {
    if secret !in rows then Some(NotFound)
    else
      var row := rows[secret];
      if row.status != Pending then Some(Already(row.status))
      else if row.expires < now then Some(Expired)
      else if phone != row.phone then Some(WrongPhone)
      else None
  }

  /** What the selection of expired claims takes. */
  predicate Reclaimable(row: ClaimRow, now: int) {
    row.status == Pending && row.expires < now
  }

  /** A claim is never open to its recipient and to a reclaim at the same time, and while
      it is pending it is open to one of them. */
  lemma OneDoorOpen(rows: map<string, ClaimRow>, secret: string, now: int)
    requires secret in rows
    ensures rows[secret].status == Pending ==>
              (Refusal(rows, secret, rows[secret].phone, now).None? <==> !Reclaimable(rows[secret], now))
    ensures rows[secret].status != Pending ==>
              !Reclaimable(rows[secret], now) && forall phone :: Refusal(rows, secret, phone, now).Some?
  {
  }

  /** The outcome of one pass over a list of expired rows. */
  datatype Pass = Pass(ledger: Ledger, fuel: nat, claims: map<string, ClaimRow>, reclaimed: nat)

  function ReclaimOne(p: Platform, s: Pass, key: string): Pass
    requires key in s.claims
  {
    var row := s.claims[key];
    var o := Run(s.ledger, ReleasePlan(p, row.sender, row.amount, row.currency), s.fuel);
    if o.done && o.fuel > 0
    then Pass(o.ledger, o.fuel, s.claims[key := row.(status := Reclaimed)], s.reclaimed + 1)
    else Pass(o.ledger, o.fuel, s.claims, s.reclaimed)
  }

  function ReclaimAll(p: Platform, s: Pass, keys: seq<string>): (t: Pass)
    requires forall k :: k in keys ==> k in s.claims
    ensures t.claims.Keys == s.claims.Keys
  {
    if keys == [] then s
    else ReclaimOne(p, ReclaimAll(p, s, keys[..|keys| - 1]), keys[|keys| - 1])
  }

  function Changed(a: map<string, ClaimRow>, b: map<string, ClaimRow>): set<string>
    requires a.Keys == b.Keys
  {
    set k | k in a && b[k] != a[k]
  }

  lemma ReclaimOneTouches(p: Platform, a: map<string, ClaimRow>, s: Pass, key: string)
    requires a.Keys == s.claims.Keys && key in a && s.claims[key] == a[key] && a[key].status == Pending
    ensures var t := ReclaimOne(p, s, key);
            && t.claims.Keys == a.Keys
            && (forall k :: k in a && k != key ==> t.claims[k] == s.claims[k])
            && ((t.reclaimed == s.reclaimed + 1 && t.claims[key] == a[key].(status := Reclaimed)
                 && Changed(a, t.claims) == Changed(a, s.claims) + {key})
                || (t.reclaimed == s.reclaimed && t.claims == s.claims))
  {
  }

  /** A pass changes only the listed rows, each at most from pending to reclaimed, and
      its counter is the number of rows it changed. */
  lemma {:induction false} ReclaimTouches(p: Platform, s: Pass, keys: seq<string>)
    requires forall k :: k in keys ==> k in s.claims && s.claims[k].status == Pending
    requires Distinct(keys)
    ensures var t := ReclaimAll(p, s, keys);
            && t.reclaimed == s.reclaimed + |Changed(s.claims, t.claims)|
            && (forall k :: k in s.claims && k !in keys ==> t.claims[k] == s.claims[k])
            && (forall k :: k in Changed(s.claims, t.claims) ==> t.claims[k] == s.claims[k].(status := Reclaimed))
  {
    if keys == [] {
      assert Changed(s.claims, s.claims) == {};
    } else {
      var init, key := keys[..|keys| - 1], keys[|keys| - 1];
      ReclaimTouches(p, s, init);
      assert key !in init;
      var u := ReclaimAll(p, s, init);
      assert key !in Changed(s.claims, u.claims);
      ReclaimOneTouches(p, s.claims, u, key);
    }
  }

  /** What the listed rows hold in one currency. */
  function Owed(claims: map<string, ClaimRow>, keys: seq<string>, c: Currency): nat
    requires forall k :: k in keys ==> k in claims
  {
    if keys == [] then 0
    else Owed(claims, keys[..|keys| - 1], c)
         + var row := claims[keys[|keys| - 1]]; if row.currency == c then row.amount else 0
  }

  /** What the listed rows owe to one sender. */
  function OwedTo(claims: map<string, ClaimRow>, keys: seq<string>, w: Wallet, c: Currency): nat
    requires forall k :: k in keys ==> k in claims
  {
    if keys == [] then 0
    else OwedTo(claims, keys[..|keys| - 1], w, c)
         + var row := claims[keys[|keys| - 1]]; if row.currency == c && row.sender == w then row.amount else 0
  }

  lemma {:induction false} OwedPrefix(claims: map<string, ClaimRow>, keys: seq<string>, n: nat, c: Currency)
    requires n <= |keys| && forall k :: k in keys ==> k in claims
    ensures Owed(claims, keys[..n], c) <= Owed(claims, keys, c)
  {
    if n < |keys| {
      assert keys[..|keys| - 1][..n] == keys[..n];
      OwedPrefix(claims, keys[..|keys| - 1], n, c);
    } else {
      assert keys[..n] == keys;
    }
  }

  /** From pass s to pass t every listed row was reclaimed and every sender paid exactly what
      was owed, out of escrow. */
  ghost predicate PaidAll(p: Platform, s: Pass, keys: seq<string>, t: Pass)
    requires forall k :: k in keys ==> k in s.claims
  {
    && t.claims.Keys == s.claims.Keys
    && t.reclaimed == s.reclaimed + |keys| && t.fuel == s.fuel - 2 * |keys|
    && (forall k :: k in s.claims ==>
          t.claims[k] == if k in keys then s.claims[k].(status := Reclaimed) else s.claims[k])
    && (forall c :: Balance(t.ledger, p.escrow, c) == Balance(s.ledger, p.escrow, c) - Owed(s.claims, keys, c))
    && (forall w, c :: w != p.escrow ==>
          Balance(t.ledger, w, c) == Balance(s.ledger, w, c) + OwedTo(s.claims, keys, w, c))
  }

  lemma OwedMore(claims: map<string, ClaimRow>, keys: seq<string>, key: string, w: Wallet, c: Currency)
    requires (forall k :: k in keys ==> k in claims) && key in claims
    ensures Owed(claims, keys + [key], c)
         == Owed(claims, keys, c) + if claims[key].currency == c then claims[key].amount else 0
    ensures OwedTo(claims, keys + [key], w, c) == OwedTo(claims, keys, w, c)
              + if claims[key].currency == c && claims[key].sender == w then claims[key].amount else 0
  {
    assert (keys + [key])[..|keys|] == keys;
  }

  lemma PaidOneMore(p: Platform, s: Pass, keys: seq<string>, t: Pass, key: string)
    requires (forall k :: k in keys ==> k in s.claims) && PaidAll(p, s, keys, t)
    requires key in s.claims && key !in keys && s.claims[key].sender != p.escrow
    requires 0 < s.claims[key].amount <= Balance(t.ledger, p.escrow, s.claims[key].currency) && t.fuel > 2
    ensures PaidAll(p, s, keys + [key], ReclaimOne(p, t, key))
  {
    var row := s.claims[key];
    assert t.claims[key] == row;
    ReleaseRuns(t.ledger, p, row.sender, row.amount, row.currency, t.fuel);
    forall w, c
      ensures Owed(s.claims, keys + [key], c) == Owed(s.claims, keys, c) + if row.currency == c then row.amount else 0
      ensures OwedTo(s.claims, keys + [key], w, c) == OwedTo(s.claims, keys, w, c)
                + if row.currency == c && row.sender == w then row.amount else 0
    {
      OwedMore(s.claims, keys, key, w, c);
    }
  }

  /** When escrow holds what the listed rows owe and the process survives, all are paid. */
  lemma {:induction false} ReclaimPaysAll(p: Platform, s: Pass, keys: seq<string>)
    requires forall k :: k in keys ==> k in s.claims && s.claims[k].status == Pending && s.claims[k].amount > 0
    requires forall k :: k in keys ==> s.claims[k].sender != p.escrow
    requires Distinct(keys)
    requires forall c :: Owed(s.claims, keys, c) <= Balance(s.ledger, p.escrow, c)
    requires s.fuel > 2 * |keys|
    ensures PaidAll(p, s, keys, ReclaimAll(p, s, keys))
  {
    if keys != [] {
      var init, key := keys[..|keys| - 1], keys[|keys| - 1];
      forall c ensures Owed(s.claims, init, c) <= Balance(s.ledger, p.escrow, c) {
        OwedPrefix(s.claims, keys, |keys| - 1, c);
      }
      ReclaimPaysAll(p, s, init);
      assert keys == init + [key] && key !in init;
      OwedMore(s.claims, init, key, p.escrow, s.claims[key].currency);
      PaidOneMore(p, s, init, ReclaimAll(p, s, init), key);
    }
  }

  lemma ReleaseRuns(l: Ledger, p: Platform, to: Wallet, a: nat, c: Currency, fuel: nat)
    requires 0 < a <= Balance(l, p.escrow, c) && fuel >= 2 && to != p.escrow
    ensures var o := Run(l, ReleasePlan(p, to, a, c), fuel);
            && o.done && o.fuel == fuel - 2
            && (forall w, x :: Balance(o.ledger, w, x) == Balance(l, w, x)
                  + (if w == to && x == c then a else 0) - (if w == p.escrow && x == c then a else 0))
  {
    assert ReleasePlan(p, to, a, c)[1..] == [Credit(to, a, c)];
    assert [Credit(to, a, c)][1..] == [];
    var l1 := Execute(l, Debit(p.escrow, a, c)).value;
    var l2 := Execute(l1, Credit(to, a, c)).value;
    assert Run(l2, [], fuel - 2) == Outcome(l2, fuel - 2, true);
    assert Run(l1, [Credit(to, a, c)], fuel - 1) == Outcome(l2, fuel - 2, true);
    ReleaseCompletes(l, p, to, a, c, fuel);
  }

  class Claims {
    const backend: Backend
    var rows: map<string, ClaimRow>

    constructor (b: Backend)
      ensures backend == b && rows == map[]
    {
      backend, rows := b, map[];
    }

    /** createClaim, after the sender's transfer to escrow has landed: for seven days, in
        milliseconds, the claim is refused to nobody with the secret and the phone and to
        everybody else, and from then on it is refused to all and goes back to the sender; no
        other claim is touched. */
    method CreateClaim(secret: string, sender: Wallet, phone: string, amount: nat, c: Currency, now: int)
      requires secret !in rows
      modifies this
      ensures secret in rows && rows - {secret} == old(rows)
      ensures forall given, t :: Refusal(rows, secret, given, t)
                == if t > now + 604800000 then Some(Expired) else if given != phone then Some(WrongPhone) else None
      ensures forall t :: Reclaimable(rows[secret], t) <==> t > now + 604800000
      ensures rows[secret].sender == sender && rows[secret].amount == amount && rows[secret].currency == c
    {
      ghost var before := rows;
      rows := rows[secret := ClaimRow(sender, phone, amount, c, Pending, now + TTL)];
      assert rows - {secret} == before;
    }

    /** A redemption either fails a check and touches nothing, or sends the release; the
        row becomes claimed exactly when both transactions landed and the process lived
        on to the update. */
    method RedeemClaim(secret: string, to: Wallet, phone: string, now: int) returns (r: RedeemResult)
      modifies this, backend.treasury
      ensures Refusal(old(rows), secret, phone, now).Some? ==>
                r == Refusal(old(rows), secret, phone, now).value && unchanged(backend.treasury)
      ensures r != Released ==> rows == old(rows)
      ensures Refusal(old(rows), secret, phone, now).None? ==>
                && (r == TxFailed || r == Released)
                && var row := old(rows)[secret];
                   var o := Run(old(backend.treasury.ledger),
                                ReleasePlan(backend.platform, to, row.amount, row.currency),
                                old(backend.treasury.fuel));
                && backend.treasury.ledger == o.ledger && backend.treasury.fuel == o.fuel
                && (r == Released <==> o.done && o.fuel > 0)
                && (r == Released ==> rows == old(rows)[secret := row.(status := Claimed(to))])
    {
      if secret !in rows {
        return NotFound;
      }
      var claim := rows[secret];
      if claim.status != Pending {
        return Already(claim.status);
      }
      if claim.expires < now {
        return Expired;
      }
      if phone != claim.phone {
        return WrongPhone;
      }
      var ok := backend.ReleaseEscrow(to, claim.amount, claim.currency);
      if !ok || backend.treasury.fuel == 0 {
        return TxFailed;
      }
      rows := rows[secret := claim.(status := Claimed(to))];
      return Released;
    }

    method ReclaimClaim(key: string) returns (ok: bool)
      requires key in rows
      modifies this, backend.treasury
      ensures ReclaimOne(backend.platform,
                         Pass(old(backend.treasury.ledger), old(backend.treasury.fuel), old(rows), 0), key)
           == Pass(backend.treasury.ledger, backend.treasury.fuel, rows, if ok then 1 else 0)
    {
      var c := rows[key];
      ok := backend.ReleaseEscrow(c.sender, c.amount, c.currency);
      ok := ok && backend.treasury.fuel > 0;
      if ok {
        rows := rows[key := c.(status := Reclaimed)];
      }
    }

    /** expired is the result of the SELECT: the keys of the pending rows past expiry. */
    method ReclaimExpiredClaims(expired: seq<string>, now: int) returns (reclaimed: nat)
      requires Distinct(expired)
      requires forall k :: k in expired <==> k in rows && Reclaimable(rows[k], now)
      modifies this, backend.treasury
      ensures Pass(backend.treasury.ledger, backend.treasury.fuel, rows, reclaimed)
           == ReclaimAll(backend.platform,
                         Pass(old(backend.treasury.ledger), old(backend.treasury.fuel), old(rows), 0), expired)
    {
      reclaimed := 0;
      ghost var start := Pass(backend.treasury.ledger, backend.treasury.fuel, rows, 0);
      for i := 0 to |expired|
        invariant Pass(backend.treasury.ledger, backend.treasury.fuel, rows, reclaimed)
               == ReclaimAll(backend.platform, start, expired[..i])
      {
        assert expired[..i + 1][..i] == expired[..i];
        var ok := ReclaimClaim(expired[i]);
        if ok {
          reclaimed := reclaimed + 1;
        }
      }
      assert expired[..|expired|] == expired;
    }
  }
}
