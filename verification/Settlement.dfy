/** Merchant payouts: the request status machine of settlement.routes.ts with the
    operator's retry in admin.routes.ts. Requests interleave freely; one request is handled
    by at most one handler at a time, which may fail or die between any two of its steps. */
module Settlement {
  import opened Wrappers
  import opened Sums
  import opened Vault

  datatype Status = Pending | Approved | Rejected | Executed | Failed

  /** Where the handler of a request stands. */
  datatype Stage = Idle | Debiting | Sweeping | Withdrawing | Recording

  /** debits, sweeps and withdrawals count the transactions that landed for the request;
      stranded counts handlers that ended after their debit and before their sweep,
      unrecorded those that ended after paying and before recording it. */
  datatype Request = Request(
    merchant: Wallet, amount: nat, currency: Currency, country: Currency, destination: Wallet,
    status: Status, stage: Stage,
    debits: nat, sweeps: nat, withdrawals: nat, stranded: nat, unrecorded: nat)

  datatype Sys = Sys(ledger: Ledger, requests: map<nat, Request>)

  datatype Event =
    | Create(id: nat, merchant: Wallet, amount: nat, currency: Currency, country: Currency, destination: Wallet,
             byOrgAdmin: bool, onchain: bool)
    | Approve(id: nat, onchain: bool)
    | Reject(id: nat)
    | Execute(id: nat, fiatRail: bool)
    | Advance(id: nat)
    | Throw(id: nat)
    | Crash(id: nat)

  /** executeSettlement checks the balance, then pays on the rail of the merchant. */
  function Begin(l: Ledger, r: Request, fiatRail: bool): Request {
    if Balance(l, r.merchant, r.currency) < r.amount then r.(status := Failed)
    else r.(status := Approved, stage := if fiatRail then Debiting else Withdrawing)
  }

  function Transaction(r: Request): Option<Tx> {
    match r.stage
    case Debiting => Some(Debit(r.merchant, r.amount, r.currency))
    case Sweeping => Some(Sweep(r.amount, r.country))
    case Withdrawing => Some(Withdraw(r.merchant, r.destination, r.amount, r.currency))
    case _ => None
  }

  function Landed(r: Request): Request {
    match r.stage
    case Debiting => r.(stage := Sweeping, debits := r.debits + 1)
    case Sweeping => r.(stage := Recording, sweeps := r.sweeps + 1)
    case Withdrawing => r.(stage := Recording, withdrawals := r.withdrawals + 1)
    case Recording => r.(stage := Idle, status := Executed)
    case Idle => r
  }

  /** The handler is gone; what it had done stays done. */
  function Gone(r: Request): Request {
    r.(stage := Idle,
       stranded := r.stranded + (if r.stage == Sweeping then 1 else 0),
       unrecorded := r.unrecorded + (if r.stage == Recording then 1 else 0))
  }

  function Put(s: Sys, id: nat, r: Request): Sys {
    s.(requests := s.requests[id := r])
  }

  function Advanced(s: Sys, id: nat): Sys
    requires id in s.requests
  {
    var r := s.requests[id];
    var tx := Transaction(r);
    if tx.None? then Put(s, id, Landed(r))
    else
      var l := Vault.Execute(s.ledger, tx.value);
      if l.None? then Put(s, id, Gone(r).(status := Failed))
      else Sys(l.value, s.requests[id := Landed(r)])
  }

  function Created(s: Sys, e: Event): Request
    requires e.Create?
  {
    var r := Request(e.merchant, e.amount, e.currency, e.country, e.destination,
                     if e.byOrgAdmin then Approved else Pending, Idle, 0, 0, 0, 0, 0);
    if e.byOrgAdmin && e.onchain then Begin(s.ledger, r, false) else r
  }

  function Step(s: Sys, e: Event): Sys {
    if e.Create? then (if e.id in s.requests then s else Put(s, e.id, Created(s, e)))
    else if e.id !in s.requests then s
    else
      var r := s.requests[e.id];
      match e
      case Approve(id, onchain) =>
        if r.status != Pending || r.stage != Idle then s
        else Put(s, id, if onchain then Begin(s.ledger, r, false) else r.(status := Approved))
      case Reject(id) => if r.status != Pending || r.stage != Idle then s else Put(s, id, r.(status := Rejected))
      case Execute(id, fiatRail) =>
        if r.stage != Idle || (r.status != Approved && r.status != Failed) then s
        else Put(s, id, Begin(s.ledger, r, fiatRail))
      case Advance(id) => Advanced(s, id)
      case Throw(id) => if r.stage == Idle then s else Put(s, id, Gone(r).(status := Failed))
      case Crash(id) => Put(s, id, Gone(r))
      case _ => s
  }

  function Exec(l: Ledger, es: seq<Event>): Sys {
    if es == [] then Sys(l, map[]) else Step(Exec(l, es[..|es| - 1]), es[|es| - 1])
  }

  // ---- One request ----

  /** The counters determine each other: a handler between its debit and its sweep, or one
      that has paid and not yet recorded, is the only difference there is. */
  ghost predicate Ok(r: Request) {
    && r.debits == r.sweeps + r.stranded + (if r.stage == Sweeping then 1 else 0)
    && r.sweeps + r.withdrawals
         == r.unrecorded + (if r.stage == Recording || r.status == Executed then 1 else 0)
    && (r.stage != Idle ==> r.status == Approved)
    && (r.status == Pending || r.status == Rejected ==> r.debits == 0 && r.withdrawals == 0)
  }

  // ---- The margin ----

  /** What the request adds to the margin of a currency: debited and not swept. */
  function Unswept(r: Request, c: Currency): int {
    (if r.currency == c then r.debits * r.amount else 0) - (if r.country == c then r.sweeps * r.amount else 0)
  }

  ghost function UnsweptBy(requests: map<nat, Request>, c: Currency): map<nat, int> {
    map id | id in requests :: Unswept(requests[id], c)
  }

  ghost predicate Exact(s: Sys, l: Ledger, c: Currency) {
    Margin(s.ledger, c, true) == Margin(l, c, true) + Total(UnsweptBy(s.requests, c))
  }

  lemma PutTotal(requests: map<nat, Request>, id: nat, r: Request, c: Currency)
    ensures Total(UnsweptBy(requests[id := r], c))
         == Total(UnsweptBy(requests, c)) + Unswept(r, c) - (if id in requests then Unswept(requests[id], c) else 0)
  {
    assert UnsweptBy(requests[id := r], c) == UnsweptBy(requests, c)[id := Unswept(r, c)];
    TotalUpdate(UnsweptBy(requests, c), id, Unswept(r, c));
  }

  lemma LandedUnswept(r: Request, c: Currency)
    requires Transaction(r).Some?
    ensures Unswept(Landed(r), c) == Unswept(r, c) + Effect(Transaction(r).value, c, true)
  {
    assert (r.debits + 1) * r.amount == r.debits * r.amount + r.amount;
    assert (r.sweeps + 1) * r.amount == r.sweeps * r.amount + r.amount;
  }

  lemma AdvanceExact(s: Sys, id: nat, l: Ledger, c: Currency)
    requires id in s.requests && Exact(s, l, c)
    ensures Exact(Advanced(s, id), l, c)
  {
    var r := s.requests[id];
    var tx := Transaction(r);
    PutTotal(s.requests, id, Landed(r), c);
    PutTotal(s.requests, id, Gone(r).(status := Failed), c);
    if tx.Some? && Vault.Execute(s.ledger, tx.value).Some? {
      LandedUnswept(r, c);
      ExecuteMargin(s.ledger, tx.value, c, true);
    }
  }

  lemma CreatedUnswept(s: Sys, e: Event, c: Currency)
    requires e.Create?
    ensures Unswept(Created(s, e), c) == 0
  {
  }

  /** Only a transaction that lands changes what is unswept. */
  lemma QuietStep(s: Sys, e: Event, c: Currency)
    requires !e.Create? && !e.Advance? && e.id in s.requests
    ensures Step(s, e).ledger == s.ledger
    ensures e.id in Step(s, e).requests && Unswept(Step(s, e).requests[e.id], c) == Unswept(s.requests[e.id], c)
    ensures Step(s, e).requests == s.requests[e.id := Step(s, e).requests[e.id]]
  {
    assert s.requests[e.id := s.requests[e.id]] == s.requests;
  }

  lemma StepExact(s: Sys, e: Event, l: Ledger, c: Currency)
    requires Exact(s, l, c)
    ensures Exact(Step(s, e), l, c)
  {
    if e.Create? {
      if e.id !in s.requests {
        CreatedUnswept(s, e, c);
        PutTotal(s.requests, e.id, Created(s, e), c);
      }
    } else if e.id in s.requests {
      if e.Advance? {
        AdvanceExact(s, e.id, l, c);
      } else {
        QuietStep(s, e, c);
        PutTotal(s.requests, e.id, Step(s, e).requests[e.id], c);
      }
    }
  }

  ghost predicate AllOk(s: Sys) {
    forall id :: id in s.requests ==> Ok(s.requests[id])
  }

  lemma AdvancedOk(s: Sys, id: nat)
    requires id in s.requests && Ok(s.requests[id])
    ensures id in Advanced(s, id).requests && Ok(Advanced(s, id).requests[id])
    ensures Advanced(s, id).requests - {id} == s.requests - {id}
  {
  }

  /** An event touches its own request only, and leaves it in order. */
  lemma OwnStepOk(s: Sys, e: Event)
    requires e.id in s.requests ==> Ok(s.requests[e.id])
    ensures e.id in Step(s, e).requests ==> Ok(Step(s, e).requests[e.id])
    ensures Step(s, e).requests - {e.id} == s.requests - {e.id}
  {
    if e.Advance? && e.id in s.requests {
      AdvancedOk(s, e.id);
    }
  }

  lemma StepOk(s: Sys, e: Event)
    requires AllOk(s)
    ensures AllOk(Step(s, e))
  {
    OwnStepOk(s, e);
    forall id | id in Step(s, e).requests ensures Ok(Step(s, e).requests[id]) {
      if id != e.id {
        assert id in Step(s, e).requests - {e.id} && id in s.requests - {e.id};
        assert (Step(s, e).requests - {e.id})[id] == (s.requests - {e.id})[id];
      }
    }
  }

  lemma {:induction false} RunKeeps(l: Ledger, es: seq<Event>, c: Currency)
    ensures AllOk(Exec(l, es)) && Exact(Exec(l, es), l, c)
  {
    if es == [] {
      assert UnsweptBy(map[], c) == map[];
    } else {
      RunKeeps(l, es[..|es| - 1], c);
      StepOk(Exec(l, es[..|es| - 1]), es[|es| - 1]);
      StepExact(Exec(l, es[..|es| - 1]), es[|es| - 1], l, c);
    }
  }

  /** Reserve less claims has moved by exactly what requests have debited and not swept. */
  lemma MarginIsUnswept(l: Ledger, es: seq<Event>, c: Currency)
    ensures Margin(Exec(l, es).ledger, c, true) == Margin(l, c, true) + Total(UnsweptBy(Exec(l, es).requests, c))
  {
    RunKeeps(l, es, c);
  }

  lemma HomeUnswept(r: Request, c: Currency)
    requires Ok(r) && r.currency == r.country
    ensures Unswept(r, c) >= 0
  {
    assert r.debits * r.amount >= r.sweeps * r.amount;
  }

  /** With requests in the merchant's own currency, no failure, crash or retry ever takes
      the margin below where it started. */
  lemma HomeSettlementsKeepMargin(l: Ledger, es: seq<Event>, c: Currency)
    requires forall id :: id in Exec(l, es).requests ==>
               Exec(l, es).requests[id].currency == Exec(l, es).requests[id].country
    ensures Margin(Exec(l, es).ledger, c, true) >= Margin(l, c, true)
  {
    var s := Exec(l, es);
    RunKeeps(l, es, c);
    forall id | id in UnsweptBy(s.requests, c) ensures UnsweptBy(s.requests, c)[id] >= 0 {
      HomeUnswept(s.requests[id], c);
    }
    TotalNonNegative(UnsweptBy(s.requests, c));
  }

  // ---- Payouts ----

  /** A request is paid at most once more than its handlers were lost between paying and
      recording, and exactly so once it is marked executed; nothing is taken for a request
      that was never approved. */
  lemma PayoutsCounted(l: Ledger, es: seq<Event>, id: nat)
    requires id in Exec(l, es).requests
    ensures var r := Exec(l, es).requests[id];
            && r.sweeps + r.withdrawals <= r.unrecorded + 1
            && (r.status == Executed ==> r.sweeps + r.withdrawals == r.unrecorded + 1)
            && (r.status == Pending || r.status == Rejected ==> r.debits == r.sweeps == r.withdrawals == 0)
            && (r.stage == Idle ==> r.debits == r.sweeps + r.stranded)
  {
    RunKeeps(l, es, Usdc);
  }

  /** What a request is when it is made, and what approving and rejecting do to one that
      nobody handles: head-office requests come approved, and only pending ones can be decided. */
  lemma RequestOpens(s: Sys, id: nat, m: Wallet, a: nat, c: Currency, country: Currency, to: Wallet, byOrgAdmin: bool)
    requires id !in s.requests
    ensures var status := if byOrgAdmin then Approved else Pending;
            var t := Step(s, Create(id, m, a, c, country, to, byOrgAdmin, false));
            t == Sys(s.ledger, s.requests[id := Request(m, a, c, country, to, status, Idle, 0, 0, 0, 0, 0)])
  {
  }

  lemma RequestDecided(s: Sys, id: nat, onchain: bool)
    requires id in s.requests && s.requests[id].stage == Idle
    ensures var r := s.requests[id];
            if r.status == Pending
            then Step(s, Approve(id, false)) == Put(s, id, r.(status := Approved))
                 && Step(s, Reject(id)) == Put(s, id, r.(status := Rejected))
            else Step(s, Approve(id, onchain)) == s && Step(s, Reject(id)) == s
  {
  }

  lemma PutTwice(s: Sys, id: nat, r: Request, q: Request)
    ensures Put(Put(s, id, r), id, q) == Put(s, id, q)
  {
    assert s.requests[id := r][id := q] == s.requests[id := q];
  }

  /** On chain the platform pays at once what is approved, be it on creation or later. */
  lemma OnchainCreated(s: Sys, id: nat, m: Wallet, a: nat, c: Currency, country: Currency, to: Wallet)
    requires id !in s.requests
    ensures Step(s, Create(id, m, a, c, country, to, true, true))
         == Step(Step(s, Create(id, m, a, c, country, to, true, false)), Execute(id, false))
  {
    var r := Request(m, a, c, country, to, Approved, Idle, 0, 0, 0, 0, 0);
    RequestOpens(s, id, m, a, c, country, to, true);
    ExecutesApproved(Put(s, id, r), id);
    PutTwice(s, id, r, Begin(s.ledger, r, false));
  }

  lemma ExecutesApproved(s: Sys, id: nat)
    requires id in s.requests && s.requests[id].stage == Idle && s.requests[id].status == Approved
    ensures Step(s, Execute(id, false)) == Put(s, id, Begin(s.ledger, s.requests[id], false))
  {
  }

  lemma OnchainWaits(s: Sys, id: nat, m: Wallet, a: nat, c: Currency, country: Currency, to: Wallet)
    ensures Step(s, Create(id, m, a, c, country, to, false, true))
         == Step(s, Create(id, m, a, c, country, to, false, false))
  {
  }

  lemma OnchainApproved(s: Sys, id: nat)
    requires id in s.requests && s.requests[id].status == Pending && s.requests[id].stage == Idle
    ensures Step(s, Approve(id, true)) == Step(Step(s, Approve(id, false)), Execute(id, false))
  {
    var r := s.requests[id].(status := Approved);
    PutTwice(s, id, r, Begin(s.ledger, r, false));
    assert Begin(s.ledger, r, false) == Begin(s.ledger, s.requests[id], false);
  }

  predicate Closed(r: Request) {
    r.status == Executed || r.status == Rejected
  }

  lemma StepClosed(s: Sys, e: Event, id: nat)
    requires AllOk(s) && id in s.requests && Closed(s.requests[id])
    ensures id in Step(s, e).requests && Step(s, e).requests[id] == s.requests[id]
  {
    assert Ok(s.requests[id]);
  }

  lemma ExecAppend(l: Ledger, es: seq<Event>, more: seq<Event>)
    requires more != []
    ensures Exec(l, es + more) == Step(Exec(l, es + more[..|more| - 1]), more[|more| - 1])
  {
    var init, last := es + more[..|more| - 1], more[|more| - 1];
    assert es + more == init + [last];
    ExecSnoc(l, init, last);
  }

  lemma ExecSnoc(l: Ledger, es: seq<Event>, e: Event)
    ensures Exec(l, es + [e]) == Step(Exec(l, es), e)
  {
    assert (es + [e])[..|es|] == es;
  }

  /** An executed or rejected request stays as it is, with every counter, whatever follows. */
  lemma {:induction false} ClosedIsFinal(l: Ledger, es: seq<Event>, more: seq<Event>, id: nat)
    requires id in Exec(l, es).requests
    requires Exec(l, es).requests[id].status == Executed || Exec(l, es).requests[id].status == Rejected
    ensures id in Exec(l, es + more).requests && Exec(l, es + more).requests[id] == Exec(l, es).requests[id]
    decreases |more|
  {
    if more == [] {
      assert es + more == es;
    } else {
      var init := more[..|more| - 1];
      ClosedIsFinal(l, es, init, id);
      RunKeeps(l, es + init, Usdc);
      StepClosed(Exec(l, es + init), more[|more| - 1], id);
      ExecAppend(l, es, more);
    }
  }
}
