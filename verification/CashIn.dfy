/** cashInService.ts: a deposit reference gates one mint and one credit. */
module CashIn {
  import opened Sums
  import opened Vault
  import opened Treasury
  import opened Flows

  /** A deposit_references row; mints and credits count the transactions sent for it. */
  datatype Row = Row(wallet: Wallet, amount: nat, currency: Currency, mints: nat, credits: nat, recorded: bool)

  datatype Stage = Inserting | Minting | Crediting | Recording

  datatype Handler = Handler(reference: string, wallet: Wallet, amount: nat, currency: Currency, stage: Stage)

  datatype Sys = Sys(ledger: Ledger, rows: map<string, Row>, handlers: map<nat, Handler>)

  datatype Event =
    | Arrive(pid: nat, reference: string, wallet: Wallet, amount: nat, currency: Currency)
    | Next(pid: nat)
    | Crash(pid: nat)

  function Fail(s: Sys, pid: nat): Sys {
    s.(handlers := s.handlers - {pid})
  }

  function Advance(s: Sys, pid: nat): Sys
    requires pid in s.handlers
  {
    var h := s.handlers[pid];
    if h.stage == Inserting then
      if h.reference in s.rows then Fail(s, pid)
      else s.(rows := s.rows[h.reference := Row(h.wallet, h.amount, h.currency, 0, 0, false)],
              handlers := s.handlers[pid := h.(stage := Minting)])
    else if h.reference !in s.rows then s
    else
      var row := s.rows[h.reference];
      match h.stage
      case Minting =>
        var r := Execute(s.ledger, Mint(h.amount, h.currency));
        if r.None? then Fail(s, pid)
        else Sys(r.value, s.rows[h.reference := row.(mints := row.mints + 1)],
                 s.handlers[pid := h.(stage := Crediting)])
      case Crediting =>
        var r := Execute(s.ledger, Credit(h.wallet, h.amount, h.currency));
        if r.None? then Fail(s, pid)
        else Sys(r.value, s.rows[h.reference := row.(credits := row.credits + 1)],
                 s.handlers[pid := h.(stage := Recording)])
      case _ => s.(rows := s.rows[h.reference := row.(recorded := true)], handlers := s.handlers - {pid})
  }

  function Step(s: Sys, e: Event): Sys {
    match e
    case Arrive(pid, ref, w, a, c) =>
      if pid in s.handlers then s
      else s.(handlers := s.handlers[pid := Handler(ref, w, a, c, Inserting)])
    case Next(pid) => if pid in s.handlers then Advance(s, pid) else s
    case Crash(pid) => Fail(s, pid)
  }

  function Exec(l: Ledger, es: seq<Event>): Sys {
    if es == [] then Sys(l, map[], map[]) else Step(Exec(l, es[..|es| - 1]), es[|es| - 1])
  }

  /** Minted for a reference and not yet credited. */
  function Held(r: Row, c: Currency): int {
    if r.currency == c then (r.mints - r.credits) * r.amount else 0
  }

  ghost function HeldBy(rows: map<string, Row>, c: Currency): map<string, int> {
    map k | k in rows :: Held(rows[k], c)
  }

  ghost predicate HandlerOk(s: Sys, pid: nat)
    requires pid in s.handlers
  {
    var h := s.handlers[pid];
    h.stage == Inserting || (
      && h.reference in s.rows
      && var r := s.rows[h.reference];
         && r.amount == h.amount && r.currency == h.currency && r.wallet == h.wallet
         && r.mints == (if h.stage == Minting then 0 else 1)
         && r.credits == (if h.stage == Recording then 1 else 0))
  }

  ghost predicate Inv(s: Sys, l: Ledger) {
    HandlersOk(s) && forall c :: Funded(s, l, c)
  }

  ghost predicate HandlersOk(s: Sys) {
    && (forall pid :: pid in s.handlers ==> HandlerOk(s, pid))
    && (forall p, q | p in s.handlers && q in s.handlers && p != q ::
          s.handlers[p].stage == Inserting || s.handlers[q].stage == Inserting
          || s.handlers[p].reference != s.handlers[q].reference)
    && (forall k :: k in s.rows ==> s.rows[k].credits <= s.rows[k].mints <= 1)
  }

  ghost predicate Funded(s: Sys, l: Ledger, c: Currency) {
    Margin(s.ledger, c, false) == Margin(l, c, false) + Total(HeldBy(s.rows, c))
  }

  lemma RowUpdate(rows: map<string, Row>, k: string, r: Row, c: Currency)
    ensures Total(HeldBy(rows[k := r], c))
         == Total(HeldBy(rows, c)) + Held(r, c) - (if k in rows then Held(rows[k], c) else 0)
  {
    assert HeldBy(rows[k := r], c) == HeldBy(rows, c)[k := Held(r, c)];
    TotalUpdate(HeldBy(rows, c), k, Held(r, c));
  }

  lemma InsertFunded(s: Sys, pid: nat, l: Ledger, c: Currency)
    requires pid in s.handlers && s.handlers[pid].stage == Inserting && Funded(s, l, c)
    ensures Funded(Advance(s, pid), l, c)
  {
    var h := s.handlers[pid];
    if h.reference !in s.rows {
      RowUpdate(s.rows, h.reference, Row(h.wallet, h.amount, h.currency, 0, 0, false), c);
    }
  }

  /** A row holds its amount between its mint and its credit. */
  lemma HeldStages(row: Row, c: Currency)
    requires row.mints == 0 && row.credits == 0
    ensures Held(row, c) == 0 && Held(row.(mints := 1, credits := 1), c) == 0
    ensures Held(row.(mints := 1), c) == if row.currency == c then row.amount else 0
  {
  }

  lemma LandedFunded(s: Sys, k: string, row: Row, tx: Tx, l: Ledger, c: Currency)
    requires k in s.rows && Funded(s, l, c) && Execute(s.ledger, tx).Some?
    requires Held(row, c) == Held(s.rows[k], c) + Effect(tx, c, false)
    ensures Margin(Execute(s.ledger, tx).value, c, false) == Margin(l, c, false) + Total(HeldBy(s.rows[k := row], c))
  {
    RowUpdate(s.rows, k, row, c);
    ExecuteMargin(s.ledger, tx, c, false);
  }

  lemma MintFunded(s: Sys, pid: nat, l: Ledger, c: Currency)
    requires pid in s.handlers && s.handlers[pid].stage == Minting && HandlerOk(s, pid) && Funded(s, l, c)
    ensures Funded(Advance(s, pid), l, c)
  {
    var h := s.handlers[pid];
    var tx, row := Mint(h.amount, h.currency), s.rows[h.reference];
    HeldStages(row, c);
    if Execute(s.ledger, tx).Some? {
      LandedFunded(s, h.reference, row.(mints := 1), tx, l, c);
    }
  }

  lemma CreditFunded(s: Sys, pid: nat, l: Ledger, c: Currency)
    requires pid in s.handlers && s.handlers[pid].stage == Crediting && HandlerOk(s, pid) && Funded(s, l, c)
    ensures Funded(Advance(s, pid), l, c)
  {
    var h := s.handlers[pid];
    var tx, row := Credit(h.wallet, h.amount, h.currency), s.rows[h.reference];
    HeldStages(row.(mints := 0), c);
    assert row.(mints := 0).(mints := 1) == row;
    if Execute(s.ledger, tx).Some? {
      LandedFunded(s, h.reference, row.(credits := 1), tx, l, c);
    }
  }

  lemma AdvanceFunded(s: Sys, pid: nat, l: Ledger, c: Currency)
    requires pid in s.handlers && HandlerOk(s, pid) && Funded(s, l, c)
    ensures Funded(Advance(s, pid), l, c)
  {
    match s.handlers[pid].stage
    case Inserting => InsertFunded(s, pid, l, c);
    case Minting => MintFunded(s, pid, l, c);
    case Crediting => CreditFunded(s, pid, l, c);
    case Recording =>
      var h := s.handlers[pid];
      RowUpdate(s.rows, h.reference, s.rows[h.reference].(recorded := true), c);
  }

  lemma AdvanceHandlers(s: Sys, pid: nat)
    requires HandlersOk(s) && pid in s.handlers
    ensures HandlersOk(Advance(s, pid))
  {
    var t := Advance(s, pid);
    assert HandlerOk(s, pid);
    forall q | q in t.handlers ensures HandlerOk(t, q) {
      AdvanceHandler(s, pid, q);
    }
  }

  lemma AdvanceHandler(s: Sys, pid: nat, q: nat)
    requires HandlersOk(s) && pid in s.handlers && q in Advance(s, pid).handlers
    ensures q in s.handlers && HandlerOk(Advance(s, pid), q)
  {
    assert HandlerOk(s, pid);
    assert q in s.handlers && HandlerOk(s, q);
  }

  lemma AdvanceKeeps(s: Sys, pid: nat, l: Ledger)
    requires Inv(s, l) && pid in s.handlers
    ensures Inv(Advance(s, pid), l)
  {
    AdvanceHandlers(s, pid);
    forall c ensures Funded(Advance(s, pid), l, c) {
      assert Funded(s, l, c);
      AdvanceFunded(s, pid, l, c);
    }
  }

  lemma {:induction false} RunKeeps(l: Ledger, es: seq<Event>)
    ensures Inv(Exec(l, es), l)
  {
    if es == [] {
      forall c ensures Funded(Exec(l, es), l, c) {
        assert HeldBy(Exec(l, es).rows, c) == map[];
      }
    } else {
      RunKeeps(l, es[..|es| - 1]);
      var s, e := Exec(l, es[..|es| - 1]), es[|es| - 1];
      if e.Next? && e.pid in s.handlers {
        AdvanceKeeps(s, e.pid, l);
      } else {
        var t := Step(s, e);
        forall c ensures Funded(t, l, c) {
          assert Funded(s, l, c);
        }
        forall q | q in t.handlers ensures HandlerOk(t, q) {
          if q in s.handlers {
            assert HandlerOk(s, q);
          }
        }
      }
    }
  }

  /** However handlers interleave and wherever they die: a reference is minted at most
      once, is credited only after its mint, and the backing margin is above its starting
      value by exactly what was minted and not credited, so it never drops. */
  lemma OneMintPerReference(l: Ledger, es: seq<Event>, reference: string, c: Currency)
    ensures var s := Exec(l, es);
            && (reference in s.rows ==> s.rows[reference].credits <= s.rows[reference].mints <= 1)
            && Margin(s.ledger, c, false) == Margin(l, c, false) + Total(HeldBy(s.rows, c))
            && Margin(s.ledger, c, false) >= Margin(l, c, false)
  {
    RunKeeps(l, es);
    var s := Exec(l, es);
    assert Funded(s, l, c);
    var held: map<string, int> := HeldBy(s.rows, c);
    forall k | k in held ensures held[k] >= 0 {
      HeldNonNegative(s.rows[k], c);
    }
    TotalNonNegative(held);
  }

  lemma HeldNonNegative(r: Row, c: Currency)
    requires r.credits <= r.mints
    ensures Held(r, c) >= 0
  {
    assert (r.mints - r.credits) * r.amount >= 0;
  }

  datatype Result = Done | Duplicate | Failed

  class Deposits {
    const treasury: TreasuryService
    var rows: map<string, Row>

    constructor (t: TreasuryService)
      ensures treasury == t && rows == map[]
    {
      treasury, rows := t, map[];
    }

    /** One request: the row is written first, then the mint, then the credit, then the row
        is completed; it says what landed, wherever the process stopped. */
    method CashIn(reference: string, wallet: Wallet, amount: nat, c: Currency) returns (r: Result)
      modifies this, treasury
      ensures r == Duplicate <==> reference in old(rows)
      ensures r == Duplicate ==> rows == old(rows) && unchanged(treasury)
      ensures r != Duplicate ==>
                var o := Run(old(treasury.ledger), CashInPlan(wallet, amount, c), old(treasury.fuel));
                var row := RowAfter(old(treasury.ledger), wallet, amount, c, old(treasury.fuel));
                && treasury.ledger == o.ledger && treasury.fuel == o.fuel
                && rows == old(rows)[reference := row] && (r == Done <==> row.recorded)
    {
      if reference in rows {
        return Duplicate;
      }
      ghost var before, l, f := rows, treasury.ledger, treasury.fuel;
      CashInStops(l, wallet, amount, c, f);
      RunOne(l, Mint(amount, c), f);
      var row := Row(wallet, amount, c, 0, 0, false);
      rows := rows[reference := row];
      var ok := treasury.MintTreasuryToken(amount, c);
      if !ok {
        return Failed;
      }
      row := row.(mints := 1);
      rows := rows[reference := row];
      assert rows == before[reference := row];
      RunOne(treasury.ledger, Credit(wallet, amount, c), treasury.fuel);
      ok := treasury.VaultAdminCredit(wallet, amount, c);
      if !ok {
        return Failed;
      }
      row := row.(credits := 1, recorded := treasury.fuel > 0);
      rows := rows[reference := row];
      assert rows == before[reference := row];
      r := if row.recorded then Done else Failed;
    }
  }

  /** The row a request leaves when its process lives to make fuel more transactions and
      updates. */
  function RowAfter(l: Ledger, w: Wallet, a: nat, c: Currency, fuel: nat): Row {
    var minted := Execute(l, Mint(a, c));
    if fuel == 0 || minted.None? then Row(w, a, c, 0, 0, false)
    else if fuel == 1 || Execute(minted.value, Credit(w, a, c)).None? then Row(w, a, c, 1, 0, false)
    else Row(w, a, c, 1, 1, fuel > 2)
  }

  lemma CashInStops(l: Ledger, w: Wallet, a: nat, c: Currency, fuel: nat)
    ensures var minted := Execute(l, Mint(a, c));
            Run(l, CashInPlan(w, a, c), fuel) ==
              if fuel == 0 || minted.None? then Outcome(l, fuel, false)
              else if fuel == 1 || Execute(minted.value, Credit(w, a, c)).None? then
                Outcome(minted.value, fuel - 1, false)
              else Outcome(Execute(minted.value, Credit(w, a, c)).value, fuel - 2, true)
  {
    assert CashInPlan(w, a, c) == [Mint(a, c)] + [Credit(w, a, c)];
    RunAppend(l, [Mint(a, c)], [Credit(w, a, c)], fuel);
    RunOne(l, Mint(a, c), fuel);
    if fuel > 0 && Execute(l, Mint(a, c)).Some? {
      RunOne(Execute(l, Mint(a, c)).value, Credit(w, a, c), fuel - 1);
    }
  }

  /** The row says what landed for it, and that is all that changed on chain. */
  lemma RowMatchesLedger(l: Ledger, w: Wallet, a: nat, c: Currency, fuel: nat)
    ensures var row, k := RowAfter(l, w, a, c, fuel), Run(l, CashInPlan(w, a, c), fuel).ledger;
            && row.credits <= row.mints <= 1 && (row.recorded ==> row.credits == 1)
            && (forall u, x :: Balance(k, u, x)
                            == Balance(l, u, x) + if u == w && x == c then row.credits * a else 0)
            && (forall x :: Get(k.backing, x) == Get(l.backing, x) + if x == c then row.mints * a else 0)
  {
    CashInStops(l, w, a, c, fuel);
  }

  // ---- One request alone is a run of the machine ----

  function DepositEvent(j: nat, fuel: nat): Event {
    if j < fuel then Next(0) else Crash(0)
  }

  /** The request arrives and reserves its reference, and then what its process lives to do. */
  function Alone(s: Sys, reference: string, w: Wallet, a: nat, c: Currency, fuel: nat): Sys {
    var reserved := Step(Step(s, Arrive(0, reference, w, a, c)), Next(0));
    Step(Step(Step(reserved, DepositEvent(0, fuel)), DepositEvent(1, fuel)), DepositEvent(2, fuel))
  }

  lemma GoneStays(s: Sys, j: nat, fuel: nat)
    requires s.handlers == map[]
    ensures Step(s, DepositEvent(j, fuel)) == s
  {
  }

  lemma StagesAlone(l: Ledger, rows: map<string, Row>, h: Handler, j: nat, fuel: nat)
    requires h.reference in rows
    ensures var s := Sys(l, rows, map[0 := h]);
            var (row, tx) := (rows[h.reference], if h.stage == Minting then Mint(h.amount, h.currency)
                                                 else Credit(h.wallet, h.amount, h.currency));
            h.stage == Minting || h.stage == Crediting ==>
              Step(s, DepositEvent(j, fuel)) ==
                if j >= fuel || Execute(l, tx).None? then Sys(l, rows, map[])
                else if h.stage == Minting then
                  Sys(Execute(l, tx).value, rows[h.reference := row.(mints := row.mints + 1)],
                      map[0 := h.(stage := Crediting)])
                else
                  Sys(Execute(l, tx).value, rows[h.reference := row.(credits := row.credits + 1)],
                      map[0 := h.(stage := Recording)])
    ensures h.stage == Recording ==>
              Step(Sys(l, rows, map[0 := h]), DepositEvent(j, fuel)) ==
                Sys(l, if j >= fuel then rows else rows[h.reference := rows[h.reference].(recorded := true)], map[])
  {
    assert map[0 := h] - {0} == map[];
  }

  /** What the handler leaves on the ledger and in the table is what the machine does, for a
      used and for a new reference and wherever the process dies. */
  lemma CashInAlone(l: Ledger, rows: map<string, Row>, reference: string, w: Wallet, a: nat, c: Currency, fuel: nat)
    ensures Alone(Sys(l, rows, map[]), reference, w, a, c, fuel) ==
              if reference in rows then Sys(l, rows, map[])
              else Sys(Run(l, CashInPlan(w, a, c), fuel).ledger,
                       rows[reference := RowAfter(l, w, a, c, fuel)], map[])
  {
    var s, h := Sys(l, rows, map[]), Handler(reference, w, a, c, Inserting);
    var s1 := Step(s, Arrive(0, reference, w, a, c));
    assert s1 == Sys(l, rows, map[0 := h]);
    var s2 := Step(s1, Next(0));
    if reference in rows {
      assert s2.handlers == map[];
      GoneStays(s2, 0, fuel);
      GoneStays(s2, 1, fuel);
      GoneStays(s2, 2, fuel);
    } else {
      NewAlone(l, rows, h, fuel);
    }
  }

  lemma NewAlone(l: Ledger, rows: map<string, Row>, h: Handler, fuel: nat)
    requires h.stage == Inserting && h.reference !in rows
    ensures var s2 := Step(Sys(l, rows, map[0 := h]), Next(0));
            Step(Step(Step(s2, DepositEvent(0, fuel)), DepositEvent(1, fuel)), DepositEvent(2, fuel)) ==
              Sys(Run(l, CashInPlan(h.wallet, h.amount, h.currency), fuel).ledger,
                  rows[h.reference := RowAfter(l, h.wallet, h.amount, h.currency, fuel)], map[])
  {
    var k := h.reference;
    var row0 := Row(h.wallet, h.amount, h.currency, 0, 0, false);
    var rows2 := rows[k := row0];
    CashInStops(l, h.wallet, h.amount, h.currency, fuel);
    var s2 := Step(Sys(l, rows, map[0 := h]), Next(0));
    assert s2 == Sys(l, rows2, map[0 := h.(stage := Minting)]);
    StagesAlone(l, rows2, h.(stage := Minting), 0, fuel);
    var s3 := Step(s2, DepositEvent(0, fuel));
    if s3.handlers == map[] {
      GoneStays(s3, 1, fuel);
      GoneStays(s3, 2, fuel);
    } else {
      assert s3 == Sys(s3.ledger, rows[k := row0.(mints := 1)], map[0 := h.(stage := Crediting)]);
      MintedAlone(s3.ledger, rows, h, fuel);
    }
  }

  lemma MintedAlone(l: Ledger, rows: map<string, Row>, h: Handler, fuel: nat)
    requires fuel >= 1 && h.stage == Inserting
    ensures var row := Row(h.wallet, h.amount, h.currency, 1, 0, false);
            var credited := Execute(l, Credit(h.wallet, h.amount, h.currency));
            var s := Sys(l, rows[h.reference := row], map[0 := h.(stage := Crediting)]);
            Step(Step(s, DepositEvent(1, fuel)), DepositEvent(2, fuel)) ==
              if fuel == 1 || credited.None? then Sys(l, rows[h.reference := row], map[])
              else Sys(credited.value, rows[h.reference := row.(credits := 1, recorded := fuel > 2)], map[])
  {
    var row := Row(h.wallet, h.amount, h.currency, 1, 0, false);
    var s := Sys(l, rows[h.reference := row], map[0 := h.(stage := Crediting)]);
    StagesAlone(l, rows[h.reference := row], h.(stage := Crediting), 1, fuel);
    var t := Step(s, DepositEvent(1, fuel));
    if t.handlers == map[] {
      GoneStays(t, 2, fuel);
    } else {
      assert t.rows == rows[h.reference := row.(credits := 1)];
      StagesAlone(t.ledger, t.rows, h.(stage := Recording), 2, fuel);
    }
  }
}
