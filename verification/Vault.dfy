/** The custodial ledger as the backend signer sees it: one claim per wallet and
    currency, the treasury tokens held by the Vault, the ERC-20 inventory behind
    withdrawals, and what external addresses have received. */
module Vault {
  import opened Wrappers
  import opened Sums

  type Wallet = nat

  datatype Currency = Usdc | Fiat(code: string)

  datatype Ledger = Ledger(
    claims: map<Currency, map<Wallet, nat>>,
    backing: map<Currency, nat>,
    inventory: map<Currency, nat>,
    external: map<(Currency, Wallet), nat>)

  /** The transactions the backend sends. Each one is atomic on chain. */
  datatype Tx =
    | Credit(user: Wallet, amount: nat, currency: Currency)
    | Debit(user: Wallet, amount: nat, currency: Currency)
    | Mint(amount: nat, currency: Currency)
    | Sweep(amount: nat, currency: Currency)
    | Withdraw(from: Wallet, recipient: Wallet, amount: nat, currency: Currency)

  function Get<K>(m: map<K, nat>, k: K): nat {
    if k in m then m[k] else 0
  }

  function ClaimsOf(l: Ledger, c: Currency): map<Wallet, nat> {
    if c in l.claims then l.claims[c] else map[]
  }

  function Balance(l: Ledger, w: Wallet, c: Currency): nat {
    Get(ClaimsOf(l, c), w)
  }

  function SetBalance(l: Ledger, w: Wallet, c: Currency, v: nat): Ledger {
    l.(claims := l.claims[c := ClaimsOf(l, c)[w := v]])
  }

  ghost function TotalClaims(l: Ledger, c: Currency): int {
    Total(ClaimsOf(l, c))
  }

  /** None is a revert: the ledger is left as it was. USDC has no treasury token, so there
      is nothing to mint or sweep. */
  function Execute(l: Ledger, tx: Tx): Option<Ledger> {
    if tx.amount == 0 then None
    else match tx
      case Credit(w, a, c) => Some(SetBalance(l, w, c, Balance(l, w, c) + a))
      case Debit(w, a, c) =>
        if Balance(l, w, c) < a then None else Some(SetBalance(l, w, c, Balance(l, w, c) - a))
      case Mint(a, c) => if c.Usdc? then None else Some(l.(backing := l.backing[c := Get(l.backing, c) + a]))
      case Sweep(a, c) =>
        if c.Usdc? || Get(l.backing, c) < a then None
        else Some(l.(backing := l.backing[c := Get(l.backing, c) - a]))
      case Withdraw(w, to, a, c) =>
        if Balance(l, w, c) < a || Get(l.inventory, c) < a then None
        else Some(SetBalance(l, w, c, Balance(l, w, c) - a).(
                    inventory := l.inventory[c := Get(l.inventory, c) - a],
                    external := l.external[(c, to) := Get(l.external, (c, to)) + a]))
  }

  /** A user-signed Vault.transfer between two wallets. */
  function Transfer(l: Ledger, from: Wallet, to: Wallet, a: nat, c: Currency): Option<Ledger> {
    if a == 0 || Balance(l, from, c) < a then None
    else
      var l1 := SetBalance(l, from, c, Balance(l, from, c) - a);
      Some(SetBalance(l1, to, c, Balance(l1, to, c) + a))
  }

  /** When a transaction reverts. */
  lemma RevertsIff(l: Ledger, tx: Tx)
    ensures Execute(l, tx).None? <==>
              || tx.amount == 0
              || (tx.Debit? && Balance(l, tx.user, tx.currency) < tx.amount)
              || (tx.Mint? && tx.currency == Usdc)
              || (tx.Sweep? && (tx.currency == Usdc || Get(l.backing, tx.currency) < tx.amount))
              || (tx.Withdraw? && (Balance(l, tx.from, tx.currency) < tx.amount
                                   || Get(l.inventory, tx.currency) < tx.amount))
  {
  }

  /** A user's transfer moves the amount from one claim to the other and nothing else; it
      reverts exactly when there is nothing to move or too little. */
  lemma TransferMoves(l: Ledger, from: Wallet, to: Wallet, a: nat, c: Currency)
    ensures Transfer(l, from, to, a, c).None? <==> a == 0 || Balance(l, from, c) < a
    ensures Transfer(l, from, to, a, c).Some? ==>
              var k := Transfer(l, from, to, a, c).value;
              && k.backing == l.backing && k.inventory == l.inventory && k.external == l.external
              && forall w, x :: Balance(k, w, x) == Balance(l, w, x)
                   - (if w == from && x == c then a else 0) + (if w == to && x == c then a else 0)
  {
  }

  /** Reserve behind the claims of one currency: treasury tokens only, or treasury
      tokens together with the ERC-20 inventory. */
  function Reserve(l: Ledger, c: Currency, inventory: bool): nat {
    Get(l.backing, c) + if inventory then Get(l.inventory, c) else 0
  }

  ghost function Margin(l: Ledger, c: Currency, inventory: bool): int {
    Reserve(l, c, inventory) - TotalClaims(l, c)
  }

  /** What one successful transaction does to the margin. */
  function Effect(tx: Tx, c: Currency, inventory: bool): int {
    if tx.currency != c then 0
    else match tx
      case Credit(_, a, _) => 0 - a
      case Debit(_, a, _) => a
      case Mint(a, _) => a
      case Sweep(a, _) => 0 - a
      case Withdraw(_, _, a, _) => if inventory then 0 else a
  }

  lemma SetBalanceTotal(l: Ledger, w: Wallet, c: Currency, v: nat, x: Currency)
    ensures TotalClaims(SetBalance(l, w, c, v), x)
         == TotalClaims(l, x) + if x == c then v - Balance(l, w, c) else 0
  {
    TotalUpdate(ClaimsOf(l, c), w, v);
  }

  /** The wallet whose claim a ledger transaction changes. */
  function Payer(tx: Tx): Wallet
    requires !tx.Mint? && !tx.Sweep?
  {
    if tx.Withdraw? then tx.from else tx.user
  }

  /** What one successful transaction does to the claims of a currency. */
  lemma ExecuteClaims(l: Ledger, tx: Tx, c: Currency)
    requires Execute(l, tx).Some?
    ensures TotalClaims(Execute(l, tx).value, c) == TotalClaims(l, c)
         + (if tx.currency != c || tx.Mint? || tx.Sweep? then 0 else if tx.Credit? then tx.amount else 0 - tx.amount)
  {
    var l' := Execute(l, tx).value;
    if tx.Mint? || tx.Sweep? {
      assert l'.claims == l.claims;
    } else {
      var held := Balance(l, Payer(tx), tx.currency);
      var v := if tx.Credit? then held + tx.amount else held - tx.amount;
      SetBalanceTotal(l, Payer(tx), tx.currency, v, c);
      assert l'.claims == SetBalance(l, Payer(tx), tx.currency, v).claims;
    }
  }

  lemma ExecuteReserve(l: Ledger, tx: Tx, c: Currency, inventory: bool)
    requires Execute(l, tx).Some?
    ensures Reserve(Execute(l, tx).value, c, inventory) == Reserve(l, c, inventory)
         + (if tx.currency != c then 0
            else if tx.Mint? then tx.amount
            else if tx.Sweep? || (tx.Withdraw? && inventory) then 0 - tx.amount
            else 0)
  {
  }

  lemma ExecuteMargin(l: Ledger, tx: Tx, c: Currency, inventory: bool)
    requires Execute(l, tx).Some?
    ensures Margin(Execute(l, tx).value, c, inventory) == Margin(l, c, inventory) + Effect(tx, c, inventory)
  {
    ExecuteClaims(l, tx, c);
    ExecuteReserve(l, tx, c, inventory);
  }

  lemma TransferMargin(l: Ledger, from: Wallet, to: Wallet, a: nat, c: Currency, x: Currency, inventory: bool)
    requires Transfer(l, from, to, a, c).Some?
    ensures Margin(Transfer(l, from, to, a, c).value, x, inventory) == Margin(l, x, inventory)
  {
    var l1 := SetBalance(l, from, c, Balance(l, from, c) - a);
    SetBalanceTotal(l, from, c, Balance(l, from, c) - a, x);
    SetBalanceTotal(l1, to, c, Balance(l1, to, c) + a, x);
  }

  // ---- Plans: the transactions one handler sends, in order ----

  /** fuel counts the transactions the process survives to send. */
  datatype Outcome = Outcome(ledger: Ledger, fuel: nat, done: bool)

  function Run(l: Ledger, plan: seq<Tx>, fuel: nat): Outcome
    decreases |plan|
  {
    if plan == [] then Outcome(l, fuel, true)
    else if fuel == 0 || Execute(l, plan[0]).None? then Outcome(l, fuel, false)
    else Run(Execute(l, plan[0]).value, plan[1..], fuel - 1)
  }

  lemma RunOne(l: Ledger, tx: Tx, fuel: nat)
    ensures Run(l, [tx], fuel)
         == if fuel == 0 || Execute(l, tx).None? then Outcome(l, fuel, false)
            else Outcome(Execute(l, tx).value, fuel - 1, true)
  {
    assert [tx][1..] == [];
  }

  lemma {:induction false} RunAppend(l: Ledger, first: seq<Tx>, second: seq<Tx>, fuel: nat)
    ensures var o := Run(l, first, fuel);
            Run(l, first + second, fuel) == if o.done then Run(o.ledger, second, o.fuel) else o
    decreases |first|
  {
    if first == [] {
      assert first + second == second;
    } else {
      assert (first + second)[0] == first[0];
      assert (first + second)[1..] == first[1..] + second;
      if fuel != 0 && Execute(l, first[0]).Some? {
        RunAppend(Execute(l, first[0]).value, first[1..], second, fuel - 1);
      }
    }
  }

  /** How far the margin may fall, at worst, while a plan is being executed. */
  function Need(plan: seq<Tx>, c: Currency, inventory: bool): (n: nat) {
    if plan == [] then 0
    else
      var n := Need(plan[1..], c, inventory) - Effect(plan[0], c, inventory);
      if n < 0 then 0 else n
  }

  /** Wherever a plan stops, by crash, revert or completion, the margin has fallen
      by at most Need. */
  lemma {:induction false} RunMargin(l: Ledger, plan: seq<Tx>, fuel: nat, c: Currency, inventory: bool)
    ensures Margin(Run(l, plan, fuel).ledger, c, inventory) >= Margin(l, c, inventory) - Need(plan, c, inventory)
    decreases |plan|
  {
    if plan != [] && fuel != 0 && Execute(l, plan[0]).Some? {
      ExecuteMargin(l, plan[0], c, inventory);
      RunMargin(Execute(l, plan[0]).value, plan[1..], fuel - 1, c, inventory);
    }
  }
}
