/** Whole runs of the backend: handlers interleave transaction by transaction, users
    move claims among themselves at any time, wallets enter and leave the user tables,
    and a process may die between any two transactions. A handler that mints only the
    shortfall against the float it read runs alone, since nothing in the code protects
    that read; every other handler interleaves freely. */
module Backing {
  import opened Sums
  import opened Vault
  import opened Treasury
  import opened Flows

  datatype Task = Task(todo: seq<Tx>, readsFloat: bool)

  datatype Sys = Sys(ledger: Ledger, rows: seq<Wallet>, running: map<nat, Task>)

  datatype Event =
    | Begin(pid: nat, request: Request)
    | Send(pid: nat)
    | Crash(pid: nat)
    | UserTransfer(from: Wallet, to: Wallet, amount: nat, currency: Currency)
    | Register(rows: seq<Wallet>)

  predicate MayBegin(s: Sys, pid: nat, r: Request) {
    && pid !in s.running
    && HomeCurrency(r)
    && (forall q :: q in s.running ==> !s.running[q].readsFloat)
    && (ReadsFloat(r, s.ledger) ==> s.running == map[])
  }

  function Step(s: Sys, e: Event, p: Platform): Sys {
    match e
    case Begin(pid, r) =>
      if !MayBegin(s, pid, r) then s
      else s.(running := s.running[pid := Task(PlanOf(r, s.ledger, s.rows, p), ReadsFloat(r, s.ledger))])
    case Send(pid) =>
      if pid !in s.running then s
      else
        var t := s.running[pid];
        if t.todo == [] || Execute(s.ledger, t.todo[0]).None? then s.(running := s.running - {pid})
        else Sys(Execute(s.ledger, t.todo[0]).value, s.rows, s.running[pid := t.(todo := t.todo[1..])])
    case Crash(pid) => s.(running := s.running - {pid})
    case UserTransfer(from, to, a, c) =>
      var r := Transfer(s.ledger, from, to, a, c);
      if r.None? then s else s.(ledger := r.value)
    case Register(rows) => s.(rows := rows)
  }

  function Exec(s: Sys, es: seq<Event>, p: Platform): Sys {
    if es == [] then s else Step(Exec(s, es[..|es| - 1], p), es[|es| - 1], p)
  }

  /** The most that wallets outside the user tables have held at any moment of the run. */
  ghost function HighWater(s: Sys, es: seq<Event>, p: Platform, c: Currency): int {
    var now := Outside(Exec(s, es, p).ledger, Exec(s, es, p).rows, c);
    if es == [] then now else Max(now, HighWater(s, es[..|es| - 1], p, c))
  }

  ghost function Needs(running: map<nat, Task>, c: Currency): map<nat, int> {
    map pid | pid in running :: Need(running[pid].todo, c, false)
  }

  /** What the handlers in flight may still take is covered. */
  ghost predicate Covered(s: Sys, high: int, c: Currency) {
    Total(Needs(s.running, c)) <= high + Margin(s.ledger, c, false)
  }

  lemma NeedsUpdate(running: map<nat, Task>, pid: nat, t: Task, c: Currency)
    ensures Total(Needs(running[pid := t], c))
         == Total(Needs(running, c)) + Need(t.todo, c, false)
            - (if pid in running then Need(running[pid].todo, c, false) else 0)
  {
    assert Needs(running[pid := t], c) == Needs(running, c)[pid := Need(t.todo, c, false)];
    TotalUpdate(Needs(running, c), pid, Need(t.todo, c, false));
  }

  lemma NeedsRemove(running: map<nat, Task>, pid: nat, c: Currency)
    ensures Total(Needs(running - {pid}, c)) <= Total(Needs(running, c))
  {
    assert Needs(running - {pid}, c) == Needs(running, c) - {pid};
    if pid in running {
      TotalRemove(Needs(running, c), pid);
    } else {
      assert running - {pid} == running;
    }
  }

  lemma PurchaseNeed(l: Ledger, rows: seq<Wallet>, w: Wallet, u: nat, f: nat, x: Currency, c: Currency)
    requires c.Fiat?
    ensures Need(UsdToFiatPlan(l, rows, w, u, f, x), c, false) <= Max(0, Margin(l, c, false) + Outside(l, rows, c))
  {
    var top := TopUpPlan(l, rows, w, f, x);
    TopUpNeed(l, rows, w, f, x);
    var plan := [Debit(w, u, Usdc)] + top;
    assert plan[1..] == top;
    assert Need(plan, c, false) == Need(top, c, false);
  }

  lemma VoucherNeed(l: Ledger, rows: seq<Wallet>, m: Wallet, w: Wallet, a: nat, x: Currency, c: Currency)
    requires Balance(l, m, x) < a
    ensures Need(VoucherPlan(l, rows, m, w, a, x), c, false) <= Max(0, Margin(l, c, false) + Outside(l, rows, c))
  {
    var top, pay := TopUpPlan(l, rows, m, a - Balance(l, m, x), x), [Debit(m, a, x), Credit(w, a, x)];
    assert VoucherPlan(l, rows, m, w, a, x) == top + pay;
    TopUpNeed(l, rows, m, a - Balance(l, m, x), x);
    assert Need(pay, c, false) == 0 by { Need2(Debit(m, a, x), Credit(w, a, x), c, false); }
    NeedAppend(top, pay, c, false);
  }

  /** The two handlers that read the float need no more than the outside claims. */
  lemma FloatPlanNeed(r: Request, s: Sys, p: Platform, c: Currency)
    requires c.Fiat? && ReadsFloat(r, s.ledger)
    ensures Need(PlanOf(r, s.ledger, s.rows, p), c, false)
         <= Max(0, Margin(s.ledger, c, false) + Outside(s.ledger, s.rows, c))
  {
    match r
    case UsdToFiat(w, u, f, x) => PurchaseNeed(s.ledger, s.rows, w, u, f, x, c);
    case ChangeVoucher(m, w, a, x) => VoucherNeed(s.ledger, s.rows, m, w, a, x, c);
  }

  lemma OtherPlanNeed(r: Request, s: Sys, p: Platform, c: Currency)
    requires c.Fiat? && HomeCurrency(r) && !ReadsFloat(r, s.ledger)
    ensures Need(PlanOf(r, s.ledger, s.rows, p), c, false) == 0
  {
    match r
    case FiatToUsd(w, f, u, x) => Need2(Debit(w, f, x), Credit(w, u, Usdc), c, false);
    case ChangeVoucher(m, w, a, x) =>
      assert VoucherPlan(s.ledger, s.rows, m, w, a, x) == [Debit(m, a, x), Credit(w, a, x)];
      Need2(Debit(m, a, x), Credit(w, a, x), c, false);
    case _ => SafePlan(r, s.ledger, s.rows, p, c, false);
  }

  lemma BeginCovered(s: Sys, pid: nat, r: Request, p: Platform, high: int, c: Currency)
    requires c.Fiat? && MayBegin(s, pid, r)
    requires Outside(s.ledger, s.rows, c) <= high && Covered(s, high, c)
    ensures Covered(Step(s, Begin(pid, r), p), high, c)
  {
    NeedsUpdate(s.running, pid, Task(PlanOf(r, s.ledger, s.rows, p), ReadsFloat(r, s.ledger)), c);
    if ReadsFloat(r, s.ledger) {
      assert Needs(s.running, c) == map[];
      FloatPlanNeed(r, s, p, c);
    } else {
      OtherPlanNeed(r, s, p, c);
    }
  }

  lemma StepCovered(s: Sys, e: Event, p: Platform, high: int, c: Currency)
    requires c.Fiat? && Outside(s.ledger, s.rows, c) <= high && Covered(s, high, c)
    ensures Covered(Step(s, e, p), high, c)
  {
    match e
    case Begin(pid, r) =>
      if MayBegin(s, pid, r) {
        BeginCovered(s, pid, r, p, high, c);
      }
    case Send(pid) =>
      if pid in s.running {
        var t := s.running[pid];
        if t.todo == [] || Execute(s.ledger, t.todo[0]).None? {
          NeedsRemove(s.running, pid, c);
        } else {
          ExecuteMargin(s.ledger, t.todo[0], c, false);
          NeedsUpdate(s.running, pid, t.(todo := t.todo[1..]), c);
        }
      }
    case Crash(pid) => NeedsRemove(s.running, pid, c);
    case UserTransfer(from, to, a, x) =>
      if Transfer(s.ledger, from, to, a, x).Some? {
        TransferMargin(s.ledger, from, to, a, x, c, false);
      }
    case Register(_) =>
  }

  lemma {:induction false} RunCovered(s: Sys, es: seq<Event>, p: Platform, c: Currency)
    requires c.Fiat? && s.running == map[]
    requires Margin(s.ledger, c, false) + Outside(s.ledger, s.rows, c) >= 0
    ensures Covered(Exec(s, es, p), HighWater(s, es, p, c), c)
    ensures Outside(Exec(s, es, p).ledger, Exec(s, es, p).rows, c) <= HighWater(s, es, p, c)
  {
    if es == [] {
      assert Needs(s.running, c) == map[];
    } else {
      var init := es[..|es| - 1];
      RunCovered(s, init, p, c);
      StepCovered(Exec(s, init, p), es[|es| - 1], p, HighWater(s, init, p, c), c);
    }
  }

  /** In every reachable state fiat claims exceed the Vault's treasury tokens by at most
      the high-water mark of the claims held outside the user tables. */
  lemma BackingOverRuns(s: Sys, es: seq<Event>, p: Platform, c: Currency)
    requires c.Fiat? && s.running == map[]
    requires Margin(s.ledger, c, false) + Outside(s.ledger, s.rows, c) >= 0
    ensures TotalClaims(Exec(s, es, p).ledger, c) - Get(Exec(s, es, p).ledger.backing, c)
         <= HighWater(s, es, p, c)
  {
    RunCovered(s, es, p, c);
    TotalNonNegative(Needs(Exec(s, es, p).running, c));
  }

  /** On runs where no wallet outside the user tables ever holds a claim, every claim is
      backed in full, including the largest single one, from any start that is covered. */
  lemma FullyBacked(s: Sys, es: seq<Event>, p: Platform, c: Currency, w: Wallet)
    requires c.Fiat? && s.running == map[]
    requires Margin(s.ledger, c, false) + Outside(s.ledger, s.rows, c) >= 0
    requires HighWater(s, es, p, c) == 0
    ensures var l := Exec(s, es, p).ledger;
            Balance(l, w, c) <= TotalClaims(l, c) <= Get(l.backing, c)
  {
    BackingOverRuns(s, es, p, c);
    TotalNonNegative(ClaimsOf(Exec(s, es, p).ledger, c));
  }

  /** The empty ledger is such a start. */
  lemma EmptyIsCovered(rows: seq<Wallet>, c: Currency)
    ensures var l := Ledger(map[], map[], map[], map[]);
            Margin(l, c, false) + Outside(l, rows, c) >= 0
  {
    var l := Ledger(map[], map[], map[], map[]);
    assert ClaimsOf(l, c) == map[];
    OutsideNonNegative(l, rows, c);
  }

  /** Why a float reader runs alone: two top-ups that read the same spare float each use as
      much of it as they need, for any tables and claims; together they use more than there
      is exactly when it is positive and less than the two amounts together. */
  lemma OverlappingTopUps(l: Ledger, rows: seq<Wallet>, w: Wallet, v: Wallet, a: nat, b: nat, c: Currency)
    requires a > 0 && b > 0 && c.Fiat?
    ensures var first := Run(l, TopUpPlan(l, rows, w, a, c), 2);
            var second := Run(first.ledger, TopUpPlan(l, rows, v, b, c), 2);
            var free := Unallocated(l, rows, c);
            && first.done && second.done
            && Margin(second.ledger, c, false) == Margin(l, c, false) - Min(a, free) - Min(b, free)
            && (Margin(l, c, false) - Margin(second.ledger, c, false) > free <==> 0 < free < a + b)
  {
    var first := Run(l, TopUpPlan(l, rows, w, a, c), 2);
    TopUpRun(l, l, rows, w, a, c);
    TopUpRun(l, first.ledger, rows, v, b, c);
  }

  /** So where the tables name every claim holder once and all claims are backed, they leave
      claims unbacked in exactly those cases. */
  lemma OverlapUnbacks(l: Ledger, rows: seq<Wallet>, w: Wallet, v: Wallet, a: nat, b: nat, c: Currency)
    requires a > 0 && b > 0 && c.Fiat?
    requires Distinct(rows) && Outside(l, rows, c) == 0 && Margin(l, c, false) >= 0
    ensures var first := Run(l, TopUpPlan(l, rows, w, a, c), 2);
            var second := Run(first.ledger, TopUpPlan(l, rows, v, b, c), 2);
            Margin(second.ledger, c, false) < 0 <==> 0 < Margin(l, c, false) < a + b
  {
    ClaimsCovered(l, rows, c);
    OverlappingTopUps(l, rows, w, v, a, b, c);
  }

  /** With a float of 10 and no claims, two top-ups of 10 leave a claim of 10 unbacked. */
  lemma OverlapExample(w: Wallet, v: Wallet, c: Currency)
    requires c.Fiat?
    ensures var l := Ledger(map[], map[c := 10], map[], map[]);
            var first := Run(l, TopUpPlan(l, [], w, 10, c), 2);
            Margin(Run(first.ledger, TopUpPlan(l, [], v, 10, c), 2).ledger, c, false) == -10
  {
    var l := Ledger(map[], map[c := 10], map[], map[]);
    assert ClaimsOf(l, c) == map[];
    OverlappingTopUps(l, [], w, v, 10, 10, c);
  }

  /** A top-up planned at l and executed at k lowers the margin by what it did not mint. */
  lemma TopUpRun(l: Ledger, k: Ledger, rows: seq<Wallet>, w: Wallet, a: nat, c: Currency)
    requires a > 0 && c.Fiat?
    ensures var o := Run(k, TopUpPlan(l, rows, w, a, c), 2);
            && o.done
            && Margin(o.ledger, c, false) == Margin(k, c, false) + MintNeeded(l, rows, a, c) - a
  {
    var m := MintNeeded(l, rows, a, c);
    var plan := TopUpPlan(l, rows, w, a, c);
    var credit := Credit(w, a, c);
    assert [credit][1..] == [];
    if m > 0 {
      assert plan[0] == Mint(m, c) && plan[1..] == [credit];
      var k1 := Execute(k, Mint(m, c)).value;
      ExecuteMargin(k, Mint(m, c), c, false);
      ExecuteMargin(k1, credit, c, false);
      assert Run(k1, [credit], 1) == Outcome(Execute(k1, credit).value, 0, true);
    } else {
      assert plan == [credit];
      ExecuteMargin(k, credit, c, false);
      assert Run(k, [credit], 2) == Outcome(Execute(k, credit).value, 1, true);
    }
  }

  // ---- One handler alone ----

  /** n sends of a handler. */
  function Sends(s: Sys, pid: nat, n: nat, p: Platform): Sys {
    if n == 0 then s else Step(Sends(s, pid, n - 1, p), Send(pid), p)
  }

  /** What n sends of a handler that is begun leave, when nothing else happens. */
  lemma {:induction false} SendsRun(s: Sys, pid: nat, n: nat, p: Platform)
    requires pid in s.running
    ensures var t := Sends(s, pid, n, p);
            && t.ledger == Run(s.ledger, s.running[pid].todo, n).ledger && t.rows == s.rows
    decreases n
  {
    var todo := s.running[pid].todo;
    if n > 0 {
      SendsFirst(s, pid, n, p);
      var t := Step(s, Send(pid), p);
      if pid in t.running {
        SendsRun(t, pid, n - 1, p);
      } else {
        NothingSent(t, pid, n - 1, p);
      }
    }
  }

  lemma {:induction false} SendsFirst(s: Sys, pid: nat, n: nat, p: Platform)
    requires n > 0
    ensures Sends(s, pid, n, p) == Sends(Step(s, Send(pid), p), pid, n - 1, p)
  {
    if n > 1 {
      SendsFirst(s, pid, n - 1, p);
    }
  }

  lemma {:induction false} NothingSent(s: Sys, pid: nat, n: nat, p: Platform)
    requires pid !in s.running
    ensures Sends(s, pid, n, p) == s
  {
    if n > 0 {
      NothingSent(s, pid, n - 1, p);
    }
  }

  /** The transactions of each handler, with the checks that come before them. */
  function Sent(r: Request, l: Ledger, rows: seq<Wallet>, p: Platform): seq<Tx> {
    match r
    case CashIn(w, a, c) => [Mint(a, c), Credit(w, a, c)]
    case FiatToUsd(w, f, u, c) =>
      if f <= Balance(l, w, c) && u <= Get(l.inventory, Usdc) then [Debit(w, f, c), Credit(w, u, Usdc)] else []
    case UsdToFiat(w, u, f, c) =>
      if u <= Balance(l, w, Usdc) then [Debit(w, u, Usdc)] + TopUpPlan(l, rows, w, f, c) else []
    case ChangeVoucher(m, w, a, c) =>
      (if a <= Balance(l, m, c) then [] else TopUpPlan(l, rows, m, a - Balance(l, m, c), c))
      + [Debit(m, a, c), Credit(w, a, c)]
    case EscrowRelease(to, a, c) => [Debit(p.escrow, a, c), Credit(to, a, c)]
    case FiatSettlement(m, a, c, country) =>
      if a <= Balance(l, m, c) then [Debit(m, a, c), Sweep(a, country)] else []
    case OnchainSettlement(m, to, a, c) => if a <= Balance(l, m, c) then [Withdraw(m, to, a, c)] else []
    case Withdrawal(from, to, gross, fee) =>
      if fee <= gross <= Balance(l, from, Usdc) && gross - fee <= Get(l.inventory, Usdc)
      then [Withdraw(from, to, gross - fee, Usdc)]
           + (if fee > 0 then [Debit(from, fee, Usdc), Credit(p.treasury, fee, Usdc)] else [])
      else []
  }

  lemma PlanIsSent(r: Request, l: Ledger, rows: seq<Wallet>, p: Platform)
    ensures PlanOf(r, l, rows, p) == Sent(r, l, rows, p)
  {
  }

  /** When a handler may begin: those that read the float run alone, all others interleave,
      and a settlement is in the merchant country's own currency. */
  lemma BeginsIff(s: Sys, pid: nat, r: Request, p: Platform)
    ensures pid in s.running ==> Step(s, Begin(pid, r), p) == s
    ensures pid !in s.running ==>
            var t := Step(s, Begin(pid, r), p);
            var onFloat := r.UsdToFiat? || (r.ChangeVoucher? && Balance(s.ledger, r.merchant, r.currency) < r.amount);
            && (pid in t.running <==>
                  && (r.FiatSettlement? ==> r.currency == r.country)
                  && (forall q :: q in s.running ==> !s.running[q].readsFloat)
                  && (onFloat ==> s.running == map[]))
            && t.ledger == s.ledger && t.rows == s.rows && t.running - {pid} == s.running
            && (pid in t.running ==> t.running[pid] == Task(Sent(r, s.ledger, s.rows, p), onFloat))
  {
    PlanIsSent(r, s.ledger, s.rows, p);
  }

  /** What happens beside the beginning of handlers: a dead one is gone, one that has nothing
      left to send or is reverted ends, users move claims and the tables change. */
  lemma OtherEvents(s: Sys, pid: nat, from: Wallet, to: Wallet, a: nat, c: Currency, rows: seq<Wallet>, p: Platform)
    ensures Step(s, Crash(pid), p) == s.(running := s.running - {pid})
    ensures Step(s, Register(rows), p) == s.(rows := rows)
    ensures Step(s, UserTransfer(from, to, a, c), p)
         == if a == 0 || Balance(s.ledger, from, c) < a then s
            else s.(ledger := Transfer(s.ledger, from, to, a, c).value)
    ensures pid in s.running && s.running[pid].todo == [] ==>
              Step(s, Send(pid), p) == s.(running := s.running - {pid})
    ensures pid in s.running && s.running[pid].todo != [] && Execute(s.ledger, s.running[pid].todo[0]).None? ==>
              Step(s, Send(pid), p) == s.(running := s.running - {pid})
  {
    TransferMoves(s.ledger, from, to, a, c);
  }

  /** A handler begun on a machine at rest sends, transaction by transaction, what the
      handler of that request sends, as far as it lives. */
  lemma RequestAlone(s: Sys, pid: nat, r: Request, p: Platform, n: nat)
    requires s.running == map[] && (r.FiatSettlement? ==> r.currency == r.country)
    ensures Sends(Step(s, Begin(pid, r), p), pid, n, p).ledger
         == Run(s.ledger, Sent(r, s.ledger, s.rows, p), n).ledger
  {
    BeginsIff(s, pid, r, p);
    SendsRun(Step(s, Begin(pid, r), p), pid, n, p);
  }

  /** What a claim changes by in a request that was begun at rest, finds what it needs and
      lives through its transactions, with everybody else untouched. */
  function ClaimAfter(r: Request, p: Platform, l: Ledger, v: Wallet, x: Currency): int {
    match r
    case CashIn(w, a, c) => if v == w && x == c then a else 0
    case FiatToUsd(w, f, u, c) => (if v == w && x == c then 0 - f else 0) + if v == w && x == Usdc then u else 0
    case UsdToFiat(w, u, f, c) => (if v == w && x == Usdc then 0 - u else 0) + if v == w && x == c then f else 0
    case ChangeVoucher(m, w, a, c) =>
      (if v == m && x == c then 0 - Min(a, Balance(l, m, c)) else 0) + if v == w && x == c then a else 0
    case EscrowRelease(to, a, c) =>
      (if v == p.escrow && x == c then 0 - a else 0) + if v == to && x == c then a else 0
    case FiatSettlement(m, a, c, _) => if v == m && x == c then 0 - a else 0
    case OnchainSettlement(m, _, a, c) => if v == m && x == c then 0 - a else 0
    case Withdrawal(from, _, gross, fee) =>
      (if v == from && x == Usdc then 0 - gross else 0) + if v == p.treasury && x == Usdc then fee else 0
  }

  /** The checks of a request and what its transactions find are in order. */
  predicate Finds(r: Request, p: Platform, l: Ledger) {
    match r
    case CashIn(_, a, c) => a > 0 && c.Fiat?
    case FiatToUsd(w, f, u, c) => 0 < f <= Balance(l, w, c) && 0 < u <= Get(l.inventory, Usdc) && c.Fiat?
    case UsdToFiat(w, u, f, c) => 0 < u <= Balance(l, w, Usdc) && f > 0 && c.Fiat?
    case ChangeVoucher(m, _, a, c) => a > 0 && (c.Fiat? || a <= Balance(l, m, c))
    case EscrowRelease(_, a, c) => 0 < a <= Balance(l, p.escrow, c)
    case FiatSettlement(m, a, c, h) => 0 < a <= Balance(l, m, c) && a <= Get(l.backing, h) && h.Fiat? && c == h
    case OnchainSettlement(m, _, a, c) => 0 < a <= Balance(l, m, c) && a <= Get(l.inventory, c)
    case Withdrawal(from, _, gross, fee) =>
      fee < gross <= Balance(l, from, Usdc) && gross - fee <= Get(l.inventory, Usdc)
  }

  /** What leaves the platform for an external address. */
  function PaidAfter(r: Request, to: Wallet, x: Currency): nat {
    match r
    case OnchainSettlement(_, d, a, c) => if to == d && x == c then a else 0
    case Withdrawal(_, d, gross, fee) => if to == d && x == Usdc && fee <= gross then gross - fee else 0
    case _ => 0
  }

  lemma PlanLands(r: Request, l: Ledger, rows: seq<Wallet>, p: Platform)
    requires Finds(r, p, l)
    ensures Run(l, PlanOf(r, l, rows, p), 4).done
  {
    match r
    case CashIn(w, a, c) => LandsTwo(l, Mint(a, c), Credit(w, a, c), 4);
    case FiatToUsd(w, f, u, c) => LandsTwo(l, Debit(w, f, c), Credit(w, u, Usdc), 4);
    case UsdToFiat(w, u, f, c) => PurchaseLands(l, rows, w, u, f, c, 4);
    case ChangeVoucher(m, w, a, c) => VoucherLands(l, rows, m, w, a, c, 4);
    case EscrowRelease(to, a, c) => LandsTwo(l, Debit(p.escrow, a, c), Credit(to, a, c), 4);
    case FiatSettlement(m, a, c, h) => LandsTwo(l, Debit(m, a, c), Sweep(a, h), 4);
    case OnchainSettlement(m, to, a, c) => RunOne(l, Withdraw(m, to, a, c), 4);
    case Withdrawal(from, to, gross, fee) => WithdrawalLands(l, p, from, to, gross, fee, 4);
  }

  lemma TwoDeltas(a: Tx, b: Tx, v: Wallet, x: Currency)
    ensures ClaimDelta([a, b], v, x) == ClaimStep(a, v, x) + ClaimStep(b, v, x)
    ensures PaidOut([a, b], v, x) == PaidStep(a, v, x) + PaidStep(b, v, x)
    ensures ClaimDelta([a], v, x) == ClaimStep(a, v, x) && PaidOut([a], v, x) == PaidStep(a, v, x)
  {
    assert [a, b][1..] == [b] && [b][1..] == [] && [a][1..] == [];
    assert ClaimDelta([b], v, x) == ClaimStep(b, v, x) && PaidOut([b], v, x) == PaidStep(b, v, x);
  }

  lemma {:induction false} DeltasAppend(first: seq<Tx>, second: seq<Tx>, v: Wallet, x: Currency)
    ensures ClaimDelta(first + second, v, x) == ClaimDelta(first, v, x) + ClaimDelta(second, v, x)
    ensures PaidOut(first + second, v, x) == PaidOut(first, v, x) + PaidOut(second, v, x)
    decreases |first|
  {
    if first == [] {
      assert first + second == second;
    } else {
      assert (first + second)[1..] == first[1..] + second;
      DeltasAppend(first[1..], second, v, x);
    }
  }

  lemma TopUpDeltas(l: Ledger, rows: seq<Wallet>, w: Wallet, a: nat, c: Currency, v: Wallet, x: Currency)
    ensures ClaimDelta(TopUpPlan(l, rows, w, a, c), v, x) == if v == w && x == c then a else 0
    ensures PaidOut(TopUpPlan(l, rows, w, a, c), v, x) == 0
  {
    var m := MintNeeded(l, rows, a, c);
    var credit := Credit(w, a, c);
    TwoDeltas(Mint(m, c), credit, v, x);
    TwoDeltas(credit, credit, v, x);
    assert TopUpPlan(l, rows, w, a, c) == if m > 0 then [Mint(m, c), credit] else [credit];
  }

  lemma VoucherSums(l: Ledger, rows: seq<Wallet>, m: Wallet, w: Wallet, a: nat, c: Currency, v: Wallet, x: Currency)
    ensures ClaimDelta(VoucherPlan(l, rows, m, w, a, c), v, x)
         == (if v == m && x == c then 0 - Min(a, Balance(l, m, c)) else 0) + if v == w && x == c then a else 0
    ensures PaidOut(VoucherPlan(l, rows, m, w, a, c), v, x) == 0
  {
    var held := Balance(l, m, c);
    DeltasAppend(ShortfallPlan(l, rows, m, a, c), [Debit(m, a, c), Credit(w, a, c)], v, x);
    TwoDeltas(Debit(m, a, c), Credit(w, a, c), v, x);
    if held < a {
      TopUpDeltas(l, rows, m, a - held, c, v, x);
    }
  }

  lemma WithdrawalSums(p: Platform, from: Wallet, to: Wallet, gross: nat, fee: nat, v: Wallet, x: Currency)
    requires fee <= gross
    ensures var fees := if fee > 0 then [Debit(from, fee, Usdc), Credit(p.treasury, fee, Usdc)] else [];
            var plan := [Withdraw(from, to, gross - fee, Usdc)] + fees;
            && ClaimDelta(plan, v, x)
               == (if v == from && x == Usdc then 0 - gross else 0) + (if v == p.treasury && x == Usdc then fee else 0)
            && PaidOut(plan, v, x) == if v == to && x == Usdc then gross - fee else 0
  {
    var first, de, cr := Withdraw(from, to, gross - fee, Usdc), Debit(from, fee, Usdc), Credit(p.treasury, fee, Usdc);
    DeltasAppend([first], if fee > 0 then [de, cr] else [], v, x);
    TwoDeltas(first, first, v, x);
    TwoDeltas(de, cr, v, x);
  }

  lemma PurchaseSums(l: Ledger, rows: seq<Wallet>, w: Wallet, u: nat, f: nat, c: Currency, v: Wallet, x: Currency)
    ensures var plan := [Debit(w, u, Usdc)] + TopUpPlan(l, rows, w, f, c);
            && ClaimDelta(plan, v, x)
               == (if v == w && x == Usdc then 0 - u else 0) + (if v == w && x == c then f else 0)
            && PaidOut(plan, v, x) == 0
  {
    DeltasAppend([Debit(w, u, Usdc)], TopUpPlan(l, rows, w, f, c), v, x);
    TwoDeltas(Debit(w, u, Usdc), Debit(w, u, Usdc), v, x);
    TopUpDeltas(l, rows, w, f, c, v, x);
  }

  lemma TwoLegSums(r: Request, l: Ledger, rows: seq<Wallet>, p: Platform, v: Wallet, x: Currency)
    requires Finds(r, p, l) && (r.CashIn? || r.FiatToUsd? || r.EscrowRelease?)
    ensures ClaimDelta(Sent(r, l, rows, p), v, x) == ClaimAfter(r, p, l, v, x)
    ensures PaidOut(Sent(r, l, rows, p), v, x) == 0
  {
    match r
    case CashIn(w, a, c) => TwoDeltas(Mint(a, c), Credit(w, a, c), v, x);
    case FiatToUsd(w, f, u, c) => TwoDeltas(Debit(w, f, c), Credit(w, u, Usdc), v, x);
    case EscrowRelease(to, a, c) => TwoDeltas(Debit(p.escrow, a, c), Credit(to, a, c), v, x);
  }

  lemma SettlementSums(r: Request, l: Ledger, rows: seq<Wallet>, p: Platform, v: Wallet, x: Currency)
    requires Finds(r, p, l) && (r.FiatSettlement? || r.OnchainSettlement?)
    ensures ClaimDelta(Sent(r, l, rows, p), v, x) == ClaimAfter(r, p, l, v, x)
    ensures PaidOut(Sent(r, l, rows, p), v, x) == PaidAfter(r, v, x)
  {
    match r
    case FiatSettlement(m, a, c, h) => TwoDeltas(Debit(m, a, c), Sweep(a, h), v, x);
    case OnchainSettlement(m, to, a, c) => TwoDeltas(Withdraw(m, to, a, c), Withdraw(m, to, a, c), v, x);
  }

  /** What the transactions of a request that passes its checks add up to. */
  lemma {:induction false} SentSums(r: Request, l: Ledger, rows: seq<Wallet>, p: Platform, v: Wallet, x: Currency)
    requires Finds(r, p, l)
    ensures ClaimDelta(Sent(r, l, rows, p), v, x) == ClaimAfter(r, p, l, v, x)
    ensures PaidOut(Sent(r, l, rows, p), v, x) == PaidAfter(r, v, x)
  {
    match r
    case UsdToFiat(w, u, f, c) => PurchaseSums(l, rows, w, u, f, c, v, x);
    case ChangeVoucher(m, w, a, c) =>
      VoucherSums(l, rows, m, w, a, c, v, x);
      PlanIsSent(r, l, rows, p);
    case Withdrawal(from, to, gross, fee) => WithdrawalSums(p, from, to, gross, fee, v, x);
    case FiatSettlement(_, _, _, _) => SettlementSums(r, l, rows, p, v, x);
    case OnchainSettlement(_, _, _, _) => SettlementSums(r, l, rows, p, v, x);
    case _ => TwoLegSums(r, l, rows, p, v, x);
  }

  /** Such a request moves every claim as its name says and pays out what it should. */
  lemma RequestCompletes(s: Sys, pid: nat, r: Request, p: Platform, v: Wallet, x: Currency)
    requires s.running == map[] && Finds(r, p, s.ledger)
    ensures var k := Sends(Step(s, Begin(pid, r), p), pid, 4, p).ledger;
            && Balance(k, v, x) == Balance(s.ledger, v, x) + ClaimAfter(r, p, s.ledger, v, x)
            && Get(k.external, (x, v)) == Get(s.ledger.external, (x, v)) + PaidAfter(r, v, x)
  {
    var l := s.ledger;
    SendsRun(Step(s, Begin(pid, r), p), pid, 4, p);
    PlanLands(r, l, s.rows, p);
    RunDeltas(l, PlanOf(r, l, s.rows, p), 4, v, x);
    PlanIsSent(r, l, s.rows, p);
    SentSums(r, l, s.rows, p, v, x);
  }
}
