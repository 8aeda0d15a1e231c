/** treasuryService.ts: ledger writes by the backend signer and the rule that a fiat
    credit uses unallocated treasury float first and mints only the shortfall. */
module Treasury {
  import opened Sums
  import opened Vault

  /** Sum of the claims of the listed wallets; a wallet listed twice counts twice. */
  function SumOver(l: Ledger, rows: seq<Wallet>, c: Currency): nat {
    if rows == [] then 0
    else SumOver(l, rows[..|rows| - 1], c) + Balance(l, rows[|rows| - 1], c)
  }

  /** Nothing in USDC: the source throws there before it sends anything, and the mint that
      the top-up then starts with reverts. */
  function Unallocated(l: Ledger, rows: seq<Wallet>, c: Currency): nat {
    var users := SumOver(l, rows, c);
    if c.Fiat? && Get(l.backing, c) > users then Get(l.backing, c) - users else 0
  }

  function MintNeeded(l: Ledger, rows: seq<Wallet>, amount: nat, c: Currency): nat {
    var free := Unallocated(l, rows, c);
    if amount > free then amount - free else 0
  }

  function TopUpPlan(l: Ledger, rows: seq<Wallet>, w: Wallet, amount: nat, c: Currency): seq<Tx> {
    var m := MintNeeded(l, rows, amount, c);
    (if m > 0 then [Mint(m, c)] else []) + [Credit(w, amount, c)]
  }

  ghost function RowSet(rows: seq<Wallet>): set<Wallet> {
    set w | w in rows
  }

  /** Claims held by wallets that are in neither user table. */
  ghost function Outside(l: Ledger, rows: seq<Wallet>, c: Currency): int {
    Total(ClaimsOf(l, c) - RowSet(rows))
  }

  lemma {:induction false} ListedClaims(l: Ledger, rows: seq<Wallet>, c: Currency)
    ensures Total(Restrict(ClaimsOf(l, c), RowSet(rows))) <= SumOver(l, rows, c)
    ensures Distinct(rows) ==> Total(Restrict(ClaimsOf(l, c), RowSet(rows))) == SumOver(l, rows, c)
  {
    var m := ClaimsOf(l, c);
    var listed := Restrict(m, RowSet(rows));
    if rows == [] {
      assert listed == map[];
    } else {
      var init, r := rows[..|rows| - 1], rows[|rows| - 1];
      assert rows == init + [r];
      assert RowSet(rows) == RowSet(init) + {r};
      ListedClaims(l, init, c);
      var before := Restrict(m, RowSet(init));
      if r in m {
        TotalUpdate(before, r, m[r]);
        assert listed == before[r := m[r]];
        if r in init {
          assert !Distinct(rows);
        }
      } else {
        assert listed == before;
      }
    }
  }

  /** The user tables and the outside wallets together cover every claim, and exactly
      so when no wallet is listed twice. */
  lemma ClaimsCovered(l: Ledger, rows: seq<Wallet>, c: Currency)
    ensures TotalClaims(l, c) <= SumOver(l, rows, c) + Outside(l, rows, c)
    ensures Distinct(rows) ==> TotalClaims(l, c) == SumOver(l, rows, c) + Outside(l, rows, c)
  {
    TotalSplit(ClaimsOf(l, c), RowSet(rows));
    ListedClaims(l, rows, c);
  }

  lemma OutsideNonNegative(l: Ledger, rows: seq<Wallet>, c: Currency)
    ensures Outside(l, rows, c) >= 0
  {
    TotalNonNegative(ClaimsOf(l, c) - RowSet(rows));
  }

  /** The mint is the least one that keeps the user tables fully backed after the
      credit, or keeps an existing shortfall from growing. */
  lemma MintIsLeast(l: Ledger, rows: seq<Wallet>, amount: nat, c: Currency)
    ensures var users := SumOver(l, rows, c);
            var short := if Get(l.backing, c) < users then users - Get(l.backing, c) else 0;
            var m := MintNeeded(l, rows, amount, c);
            && users + amount <= Get(l.backing, c) + m + short
            && (c.Fiat? && m > 0 ==> users + amount == Get(l.backing, c) + m + short)
  {
  }

  /** A top-up never needs more margin than the claims held outside the user tables. */
  lemma TopUpNeed(l: Ledger, rows: seq<Wallet>, w: Wallet, amount: nat, c: Currency)
    ensures Need(TopUpPlan(l, rows, w, amount, c), c, false)
         <= if Margin(l, c, false) + Outside(l, rows, c) > 0
            then Margin(l, c, false) + Outside(l, rows, c) else 0
    ensures forall x :: x != c ==> Need(TopUpPlan(l, rows, w, amount, c), x, false) == 0
  {
    ClaimsCovered(l, rows, c);
    var m := MintNeeded(l, rows, amount, c);
    var plan := TopUpPlan(l, rows, w, amount, c);
    forall x ensures Need([Credit(w, amount, c)], x, false) == if x == c then amount else 0 {
      assert [Credit(w, amount, c)][1..] == [];
    }
    if m > 0 {
      assert plan[1..] == [Credit(w, amount, c)];
      assert plan[0] == Mint(m, c);
    } else {
      assert plan == [Credit(w, amount, c)];
    }
  }

  /** The backend process: the chain it writes to, and how many more transactions it
      will live to send. A call returns false when the process is dead or the
      transaction reverts. */
  class TreasuryService {
    var ledger: Ledger
    var fuel: nat

    constructor (l: Ledger, f: nat)
      ensures ledger == l && fuel == f
    {
      ledger, fuel := l, f;
    }

    method Submit(tx: Tx) returns (ok: bool)
      modifies this
      ensures Outcome(ledger, fuel, ok) == Run(old(ledger), [tx], old(fuel))
    {
      var r := Execute(ledger, tx);
      assert [tx][1..] == [];
      if fuel == 0 || r.None? {
        return false;
      }
      ledger, fuel := r.value, fuel - 1;
      return true;
    }

    method VaultAdminCredit(w: Wallet, amount: nat, c: Currency) returns (ok: bool)
      modifies this
      ensures Outcome(ledger, fuel, ok) == Run(old(ledger), [Credit(w, amount, c)], old(fuel))
    {
      ok := Submit(Credit(w, amount, c));
    }

    method VaultAdminDebit(w: Wallet, amount: nat, c: Currency) returns (ok: bool)
      modifies this
      ensures Outcome(ledger, fuel, ok) == Run(old(ledger), [Debit(w, amount, c)], old(fuel))
    {
      ok := Submit(Debit(w, amount, c));
    }

    method MintTreasuryToken(amount: nat, c: Currency) returns (ok: bool)
      modifies this
      ensures Outcome(ledger, fuel, ok) == Run(old(ledger), [Mint(amount, c)], old(fuel))
    {
      ok := Submit(Mint(amount, c));
    }

    method WithdrawToExternal(from: Wallet, to: Wallet, amount: nat, c: Currency) returns (ok: bool)
      modifies this
      ensures Outcome(ledger, fuel, ok) == Run(old(ledger), [Withdraw(from, to, amount, c)], old(fuel))
    {
      ok := Submit(Withdraw(from, to, amount, c));
    }

    method SweepTreasuryFromVault(amount: nat, c: Currency) returns (ok: bool)
      modifies this
      ensures Outcome(ledger, fuel, ok) == Run(old(ledger), [Sweep(amount, c)], old(fuel))
    {
      var reserve := Get(ledger.backing, c);
      if reserve < amount {
        return false;
      }
      ok := Submit(Sweep(amount, c));
    }

    method SumAllUserFiatClaims(consumers: seq<Wallet>, merchants: seq<Wallet>, c: Currency) returns (total: nat)
      ensures total == SumOver(ledger, consumers + merchants, c)
    {
      var rows := consumers + merchants;
      total := 0;
      for i := 0 to |rows|
        invariant total == SumOver(ledger, rows[..i], c)
      {
        assert rows[..i + 1][..i] == rows[..i];
        total := total + Balance(ledger, rows[i], c);
      }
      assert rows[..|rows|] == rows;
    }

    method UnallocatedTreasuryBacking(consumers: seq<Wallet>, merchants: seq<Wallet>, c: Currency) returns (free: nat)
      ensures free == Unallocated(ledger, consumers + merchants, c)
    {
      var vaultTokens := Get(ledger.backing, c);
      var userClaims := SumAllUserFiatClaims(consumers, merchants, c);
      free := if c.Fiat? && vaultTokens > userClaims then vaultTokens - userClaims else 0;
    }

    method CreditFiatWithTreasuryBacking(consumers: seq<Wallet>, merchants: seq<Wallet>,
                                         w: Wallet, amount: nat, c: Currency)
      returns (ok: bool)
      modifies this
      ensures Outcome(ledger, fuel, ok)
           == Run(old(ledger), TopUpPlan(old(ledger), consumers + merchants, w, amount, c), old(fuel))
    {
      var unallocated := UnallocatedTreasuryBacking(consumers, merchants, c);
      var mintNeeded := if amount > unallocated then amount - unallocated else 0;
      ghost var mint := if mintNeeded > 0 then [Mint(mintNeeded, c)] else [];
      RunAppend(ledger, mint, [Credit(w, amount, c)], fuel);
      if mintNeeded > 0 {
        ok := MintTreasuryToken(mintNeeded, c);
        if !ok {
          return;
        }
      }
      ok := VaultAdminCredit(w, amount, c);
    }
  }
}
