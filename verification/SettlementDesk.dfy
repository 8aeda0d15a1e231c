/** The payout endpoints of settlement.routes.ts and admin.routes.ts, as they run. */
module SettlementDesk {
  import opened Vault
  import opened Flows
  import opened Handlers
  import S = Settlement

  datatype Payout = Payout(merchant: Wallet, amount: nat, currency: Currency, country: Currency, destination: Wallet,
                           status: S.Status)

  /** Died is no answer at all. */
  datatype Reply = NotFound | Conflict | Saved | Paid | PaymentFailed | Died

  function PlanFor(l: Ledger, p: Payout, fiatRail: bool): seq<Tx> {
    if fiatRail then FiatSettlementPlan(l, p.merchant, p.amount, p.currency, p.country)
    else OnchainSettlementPlan(l, p.merchant, p.destination, p.amount, p.currency)
  }

  /** What a payout that was approved is left as: a short balance fails it, a process that
      has died leaves it approved, and otherwise it is executed exactly when every
      transaction landed. */
  function StatusAfter(plan: seq<Tx>, o: Outcome): S.Status {
    if plan == [] then S.Failed else if o.fuel == 0 then S.Approved else if o.done then S.Executed else S.Failed
  }

  function ReplyFor(status: S.Status): Reply {
    if status == S.Executed then Paid else if status == S.Failed then PaymentFailed else Died
  }

  /** What paying a request leaves behind. */
  datatype Paying = Paying(ledger: Ledger, fuel: nat, status: S.Status, reply: Reply)

  function Attempt(l: Ledger, fuel: nat, p: Payout, fiatRail: bool): Paying {
    var o := Run(l, PlanFor(l, p, fiatRail), fuel);
    var status := StatusAfter(PlanFor(l, p, fiatRail), o);
    Paying(o.ledger, o.fuel, status, ReplyFor(status))
  }

  /** A merchant that is short fails the request and nothing is sent. Otherwise the debit and
      the sweep, or the withdrawal, are sent, and the request is executed and answered as paid
      when they landed, failed when one reverted, and left approved without an answer when the
      process died. */
  lemma AttemptIs(l: Ledger, fuel: nat, p: Payout, fiatRail: bool)
    ensures var t := Attempt(l, fuel, p, fiatRail);
            if Balance(l, p.merchant, p.currency) < p.amount
            then t == Paying(l, fuel, S.Failed, PaymentFailed)
            else
              var o := Run(l, if fiatRail then [Debit(p.merchant, p.amount, p.currency), Sweep(p.amount, p.country)]
                              else [Withdraw(p.merchant, p.destination, p.amount, p.currency)], fuel);
              && t.ledger == o.ledger && t.fuel == o.fuel
              && (o.fuel == 0 ==> t.status == S.Approved && t.reply == Died)
              && (o.fuel > 0 && o.done ==> t.status == S.Executed && t.reply == Paid)
              && (o.fuel > 0 && !o.done ==> t.status == S.Failed && t.reply == PaymentFailed)
  {
  }

  lemma WriteTwice<K, V>(m: map<K, V>, k: K, v: V, w: V)
    ensures m[k := v][k := w] == m[k := w]
  {
  }

  class Desk {
    const backend: Backend
    var requests: map<nat, Payout>

    constructor (b: Backend)
      ensures backend == b && requests == map[]
    {
      backend, requests := b, map[];
    }

    /** Pays a request and records the outcome. */
    method Pay(id: nat, fiatRail: bool) returns (r: Reply)
      requires id in requests
      modifies this, backend.treasury
      ensures var p := old(requests)[id];
              var t := Attempt(old(backend.treasury.ledger), old(backend.treasury.fuel), p, fiatRail);
              && backend.treasury.ledger == t.ledger && backend.treasury.fuel == t.fuel
              && requests == old(requests)[id := p.(status := t.status)] && r == t.reply
    {
      var p := requests[id];
      var short := Balance(backend.treasury.ledger, p.merchant, p.currency) < p.amount;
      var paid := backend.ExecuteSettlement(p.merchant, p.amount, p.currency, p.country, fiatRail, p.destination);
      var dead := !short && backend.treasury.fuel == 0;
      var status := if dead then S.Approved else if paid then S.Executed else S.Failed;
      requests := requests[id := p.(status := status)];
      r := ReplyFor(status);
    }

    /** A head-office request is approved as it is made, and paid at once on chain. */
    method Create(id: nat, merchant: Wallet, amount: nat, currency: Currency, country: Currency, destination: Wallet,
                  byOrgAdmin: bool, onchain: bool) returns (reply: Reply)
      requires id !in requests
      modifies this, backend.treasury
      ensures var p := Payout(merchant, amount, currency, country, destination, S.Approved);
              if byOrgAdmin && onchain then
                var t := Attempt(old(backend.treasury.ledger), old(backend.treasury.fuel), p, false);
                && backend.treasury.ledger == t.ledger && backend.treasury.fuel == t.fuel
                && requests == old(requests)[id := p.(status := t.status)] && reply == t.reply
              else
                && reply == Saved && unchanged(backend.treasury)
                && requests == old(requests)[id := p.(status := if byOrgAdmin then S.Approved else S.Pending)]
    {
      ghost var before := requests;
      var status := if byOrgAdmin then S.Approved else S.Pending;
      var p := Payout(merchant, amount, currency, country, destination, status);
      requests := requests[id := p];
      if status == S.Approved && onchain {
        reply := Pay(id, false);
        WriteTwice(before, id, p, requests[id]);
        return;
      }
      return Saved;
    }

    method Approve(id: nat, onchain: bool) returns (reply: Reply)
      modifies this, backend.treasury
      ensures reply == NotFound <==> id !in old(requests)
      ensures reply == Conflict <==> id in old(requests) && old(requests)[id].status != S.Pending
      ensures reply == NotFound || reply == Conflict ==> requests == old(requests) && unchanged(backend.treasury)
      ensures id in old(requests) && old(requests)[id].status == S.Pending ==>
                var p := old(requests)[id].(status := S.Approved);
                if onchain then
                  var t := Attempt(old(backend.treasury.ledger), old(backend.treasury.fuel), p, false);
                  && backend.treasury.ledger == t.ledger && backend.treasury.fuel == t.fuel
                  && requests == old(requests)[id := p.(status := t.status)] && reply == t.reply
                else
                  reply == Saved && unchanged(backend.treasury) && requests == old(requests)[id := p]
    {
      if id !in requests {
        return NotFound;
      }
      if requests[id].status != S.Pending {
        return Conflict;
      }
      ghost var before := requests;
      var p := requests[id].(status := S.Approved);
      requests := requests[id := p];
      if onchain {
        reply := Pay(id, false);
        WriteTwice(before, id, p, requests[id]);
        return;
      }
      return Saved;
    }

    method Reject(id: nat) returns (reply: Reply)
      modifies this
      ensures reply == Saved <==> id in old(requests) && old(requests)[id].status == S.Pending
      ensures reply == Saved ==> requests == old(requests)[id := old(requests)[id].(status := S.Rejected)]
      ensures reply != Saved ==> reply == Conflict && requests == old(requests)
    {
      if id !in requests || requests[id].status != S.Pending {
        return Conflict;
      }
      requests := requests[id := requests[id].(status := S.Rejected)];
      return Saved;
    }

    /** The platform operator pays an approved request or retries a failed one. */
    method Execute(id: nat, fiatRail: bool) returns (reply: Reply)
      modifies this, backend.treasury
      ensures reply == NotFound <==> id !in old(requests)
      ensures reply == Conflict <==>
                id in old(requests) && old(requests)[id].status != S.Approved && old(requests)[id].status != S.Failed
      ensures reply == NotFound || reply == Conflict ==> requests == old(requests) && unchanged(backend.treasury)
      ensures reply != NotFound && reply != Conflict ==>
                var p := old(requests)[id];
                var t := Attempt(old(backend.treasury.ledger), old(backend.treasury.fuel), p, fiatRail);
                && backend.treasury.ledger == t.ledger && backend.treasury.fuel == t.fuel
                && requests == old(requests)[id := p.(status := t.status)] && reply == t.reply
    {
      if id !in requests {
        return NotFound;
      }
      if requests[id].status != S.Approved && requests[id].status != S.Failed {
        return Conflict;
      }
      ghost var before := requests;
      var p := requests[id].(status := S.Approved);
      requests := requests[id := p];
      reply := Pay(id, fiatRail);
      WriteTwice(before, id, p, requests[id]);
    }
  }

  // ---- One payout alone is a run of the machine ----

  /** The machine's request of a row nobody is handling. */
  ghost predicate Stands(r: S.Request, p: Payout) {
    && r.merchant == p.merchant && r.amount == p.amount && r.currency == p.currency && r.country == p.country
    && r.destination == p.destination && r.status == p.status && r.stage == S.Idle
  }

  /** Event j of a payout whose process lives to send fuel more transactions and updates. */
  function PayoutEvent(id: nat, j: nat, fuel: nat): S.Event {
    if j < fuel then S.Advance(id) else S.Crash(id)
  }

  /** The execute event and what the process lives to do after it. */
  function Alone(s: S.Sys, id: nat, fiatRail: bool, fuel: nat): S.Sys {
    var begun := S.Step(s, S.Execute(id, fiatRail));
    S.Step(S.Step(S.Step(begun, PayoutEvent(id, 0, fuel)), PayoutEvent(id, 1, fuel)), PayoutEvent(id, 2, fuel))
  }

  lemma IdleRequestStays(s: S.Sys, id: nat, e: S.Event)
    requires id in s.requests && s.requests[id].stage == S.Idle && (e == S.Advance(id) || e == S.Crash(id))
    ensures S.Step(s, e) == s
  {
    assert s.requests[id := s.requests[id]] == s.requests;
  }

  lemma FiatStops(l: Ledger, p: Payout, fuel: nat)
    requires Balance(l, p.merchant, p.currency) >= p.amount
    ensures var plan := PlanFor(l, p, true);
            var debit, sweep := Debit(p.merchant, p.amount, p.currency), Sweep(p.amount, p.country);
            var l1 := Execute(l, debit);
            plan != [] && Run(l, plan, fuel) ==
              if fuel == 0 || l1.None? then Outcome(l, fuel, false)
              else if fuel == 1 || Execute(l1.value, sweep).None? then Outcome(l1.value, fuel - 1, false)
              else Outcome(Execute(l1.value, sweep).value, fuel - 2, true)
  {
    var debit, sweep := Debit(p.merchant, p.amount, p.currency), Sweep(p.amount, p.country);
    assert PlanFor(l, p, true) == [debit] + [sweep];
    RunAppend(l, [debit], [sweep], fuel);
    RunOne(l, debit, fuel);
    if fuel > 0 && Execute(l, debit).Some? {
      RunOne(Execute(l, debit).value, sweep, fuel - 1);
    }
  }

  lemma OnchainStops(l: Ledger, p: Payout, fuel: nat)
    requires Balance(l, p.merchant, p.currency) >= p.amount
    ensures var plan := PlanFor(l, p, false);
            var l1 := Execute(l, Withdraw(p.merchant, p.destination, p.amount, p.currency));
            plan != [] && Run(l, plan, fuel) ==
              if fuel == 0 || l1.None? then Outcome(l, fuel, false) else Outcome(l1.value, fuel - 1, true)
  {
    RunOne(l, Withdraw(p.merchant, p.destination, p.amount, p.currency), fuel);
  }

  /** One event of the handler, told apart by whether the process lives and whether the
      transaction lands. */
  lemma OneEvent(s: S.Sys, id: nat, j: nat, fuel: nat)
    requires id in s.requests && s.requests[id].stage != S.Idle
    ensures var r := s.requests[id];
            var tx := S.Transaction(r);
            S.Step(s, PayoutEvent(id, j, fuel)) ==
              if j >= fuel then S.Put(s, id, S.Gone(r))
              else if tx.None? then S.Put(s, id, S.Landed(r))
              else if Execute(s.ledger, tx.value).None? then S.Put(s, id, S.Gone(r).(status := S.Failed))
              else S.Sys(Execute(s.ledger, tx.value).value, s.requests[id := S.Landed(r)])
  {
  }

  lemma FiatAlone(s: S.Sys, id: nat, p: Payout, fuel: nat)
    requires id in s.requests && Stands(s.requests[id], p) && (p.status == S.Approved || p.status == S.Failed)
    requires Balance(s.ledger, p.merchant, p.currency) >= p.amount
    ensures var t, o := Alone(s, id, true, fuel), Run(s.ledger, PlanFor(s.ledger, p, true), fuel);
            && t.ledger == o.ledger && t.requests.Keys == s.requests.Keys && t.requests - {id} == s.requests - {id}
            && Stands(t.requests[id], p.(status := StatusAfter(PlanFor(s.ledger, p, true), o)))
  {
    FiatStops(s.ledger, p, fuel);
    var s1 := S.Step(s, S.Execute(id, true));
    assert s1 == S.Put(s, id, s.requests[id].(status := S.Approved, stage := S.Debiting));
    OneEvent(s1, id, 0, fuel);
    var s2 := S.Step(s1, PayoutEvent(id, 0, fuel));
    if s2.requests[id].stage == S.Idle {
      IdleRequestStays(s2, id, PayoutEvent(id, 1, fuel));
      IdleRequestStays(s2, id, PayoutEvent(id, 2, fuel));
    } else {
      OneEvent(s2, id, 1, fuel);
      var s3 := S.Step(s2, PayoutEvent(id, 1, fuel));
      if s3.requests[id].stage == S.Idle {
        IdleRequestStays(s3, id, PayoutEvent(id, 2, fuel));
      } else {
        OneEvent(s3, id, 2, fuel);
      }
    }
  }

  lemma OnchainAlone(s: S.Sys, id: nat, p: Payout, fuel: nat)
    requires id in s.requests && Stands(s.requests[id], p) && (p.status == S.Approved || p.status == S.Failed)
    requires Balance(s.ledger, p.merchant, p.currency) >= p.amount
    ensures var t, o := Alone(s, id, false, fuel), Run(s.ledger, PlanFor(s.ledger, p, false), fuel);
            && t.ledger == o.ledger && t.requests.Keys == s.requests.Keys && t.requests - {id} == s.requests - {id}
            && Stands(t.requests[id], p.(status := StatusAfter(PlanFor(s.ledger, p, false), o)))
  {
    OnchainStops(s.ledger, p, fuel);
    var s1 := S.Step(s, S.Execute(id, false));
    assert s1 == S.Put(s, id, s.requests[id].(status := S.Approved, stage := S.Withdrawing));
    OneEvent(s1, id, 0, fuel);
    var s2 := S.Step(s1, PayoutEvent(id, 0, fuel));
    if s2.requests[id].stage == S.Idle {
      IdleRequestStays(s2, id, PayoutEvent(id, 1, fuel));
      IdleRequestStays(s2, id, PayoutEvent(id, 2, fuel));
    } else {
      OneEvent(s2, id, 1, fuel);
      IdleRequestStays(S.Step(s2, PayoutEvent(id, 1, fuel)), id, PayoutEvent(id, 2, fuel));
    }
  }

  /** The execute endpoint alone is the machine's execute event and as many of the next
      steps as the process lives to make: ledger, row and every other row agree. */
  lemma PayAlone(s: S.Sys, id: nat, p: Payout, fiatRail: bool, fuel: nat)
    requires id in s.requests && Stands(s.requests[id], p) && (p.status == S.Approved || p.status == S.Failed)
    ensures var t, o := Alone(s, id, fiatRail, fuel), Run(s.ledger, PlanFor(s.ledger, p, fiatRail), fuel);
            && t.ledger == o.ledger && t.requests.Keys == s.requests.Keys && t.requests - {id} == s.requests - {id}
            && Stands(t.requests[id], p.(status := StatusAfter(PlanFor(s.ledger, p, fiatRail), o)))
  {
    if Balance(s.ledger, p.merchant, p.currency) < p.amount {
      var s1 := S.Step(s, S.Execute(id, fiatRail));
      assert s1 == S.Put(s, id, s.requests[id].(status := S.Failed));
      IdleRequestStays(s1, id, PayoutEvent(id, 0, fuel));
      IdleRequestStays(s1, id, PayoutEvent(id, 1, fuel));
      IdleRequestStays(s1, id, PayoutEvent(id, 2, fuel));
    } else if fiatRail {
      FiatAlone(s, id, p, fuel);
    } else {
      OnchainAlone(s, id, p, fuel);
    }
  }
}
