/** fulfilmentService.ts: one sale from its payment into escrow to its release. */
module Fulfilment {
  import opened Wrappers
  import opened Vault
  import opened Flows
  import opened Handlers

  datatype SaleStatus = PendingFulfilment | Paid | Refunded

  datatype ApiStatus = NotCalled | Calling | Success | Failed

  datatype Sale = Sale(merchant: Wallet, consumer: Option<Wallet>, amount: nat, currency: Currency,
                       status: SaleStatus, api: ApiStatus)

  /** A release left to run in the background, and the status it will record. */
  datatype Release = Release(to: Wallet, final: SaleStatus)

  datatype Reply = NotFound | Skipped | Answered(final: SaleStatus)

  /** The sale after processing, and the release it schedules. */
  function Process(sale: Sale, apiSuccess: bool): (Sale, Option<Release>) {
    if sale.status != PendingFulfilment || sale.api == Success || sale.api == Failed then (sale, None)
    else if apiSuccess then (sale.(api := Success), Some(Release(sale.merchant, Paid)))
    else if sale.consumer.None? then (sale.(api := Failed), None)
    else (sale.(api := Failed), Some(Release(sale.consumer.value, Refunded)))
  }

  function AfterAll(sale: Sale, answers: seq<bool>): Sale {
    if answers == [] then sale else Process(AfterAll(sale, answers[..|answers| - 1]), answers[|answers| - 1]).0
  }

  function Scheduled(sale: Sale, answers: seq<bool>): seq<Release> {
    if answers == [] then []
    else
      var n := |answers| - 1;
      Scheduled(sale, answers[..n])
      + match Process(AfterAll(sale, answers[..n]), answers[n]).1
        case None => []
        case Some(r) => [r]
  }

  /** However often a sale is processed and whatever the API says, only the first answer
      counts: it alone decides the one release there is. */
  lemma {:induction false} FirstAnswerDecides(sale: Sale, answers: seq<bool>)
    requires sale.status == PendingFulfilment && (sale.api == NotCalled || sale.api == Calling)
    requires answers != []
    ensures AfterAll(sale, answers).api == if answers[0] then Success else Failed
    ensures AfterAll(sale, answers).status == PendingFulfilment
    ensures Scheduled(sale, answers) ==
            if answers[0] then [Release(sale.merchant, Paid)]
            else if sale.consumer.Some? then [Release(sale.consumer.value, Refunded)] else []
  {
    var n := |answers| - 1;
    if n == 0 {
      assert answers[..0] == [];
    } else {
      FirstAnswerDecides(sale, answers[..n]);
    }
  }

  class Sales {
    const backend: Backend
    var rows: map<nat, Sale>

    constructor (b: Backend)
      ensures backend == b && rows == map[]
    {
      backend, rows := b, map[];
    }

    method ProcessSaleFulfilment(id: nat, apiSuccess: bool) returns (reply: Reply, release: Option<Release>)
      modifies this
      ensures id !in old(rows) ==> reply == NotFound && release == None && rows == old(rows)
      ensures id in old(rows) ==>
                && id in rows
                && (rows[id], release) == Process(old(rows)[id], apiSuccess)
                && rows == old(rows)[id := rows[id]]
                && reply == if release.Some? then Answered(release.value.final) else Skipped
    {
      if id !in rows {
        return NotFound, None;
      }
      var sale := rows[id];
      assert rows == rows[id := sale];
      if sale.status != PendingFulfilment || sale.api == Success || sale.api == Failed {
        return Skipped, None;
      }
      rows := rows[id := sale.(api := Calling)];
      if apiSuccess {
        rows := rows[id := sale.(api := Success)];
        return Answered(Paid), Some(Release(sale.merchant, Paid));
      }
      rows := rows[id := sale.(api := Failed)];
      if sale.consumer.None? {
        return Skipped, None;
      }
      return Answered(Refunded), Some(Release(sale.consumer.value, Refunded));
    }

    /** The status is recorded exactly when both transactions landed on a sale still
        waiting and the process lived on to the update; otherwise the sale stays waiting. */
    method ReleaseEscrowInBackground(id: nat, r: Release) returns (ok: bool)
      requires id in rows
      modifies this, backend.treasury
      ensures var sale := old(rows)[id];
              var o := Run(old(backend.treasury.ledger),
                           ReleasePlan(backend.platform, r.to, sale.amount, sale.currency), old(backend.treasury.fuel));
              && backend.treasury.ledger == o.ledger && backend.treasury.fuel == o.fuel
              && (ok <==> o.done && o.fuel > 0)
      ensures rows == if ok && old(rows)[id].status == PendingFulfilment
                      then old(rows)[id := old(rows)[id].(status := r.final)] else old(rows)
    {
      var sale := rows[id];
      ok := backend.ReleaseEscrow(r.to, sale.amount, sale.currency);
      ok := ok && backend.treasury.fuel > 0;
      if ok && sale.status == PendingFulfilment {
        rows := rows[id := sale.(status := r.final)];
      }
    }
  }
}
