/** One escrow handler run alone is a run of the machine: what the handlers do to rows and
    ledger is what the machine's events do to items and escrow, for every point at which
    the process may die. Then what such deaths cost at worst. */
module EscrowAlone {
  import opened Sums
  import opened Wrappers
  import opened Vault
  import opened Flows
  import opened Escrow
  import S = EscrowService
  import F = Fulfilment

  ghost predicate SameEscrow(s: Sys, l: Ledger, p: Platform) {
    forall c :: Get(s.escrow, c) == Balance(l, p.escrow, c)
  }

  /** The events of a release that has begun, when the process lives to send fuel more
      transactions and row updates; a crash of a handler that is done changes nothing. */
  function Rest(id: nat, fuel: nat): seq<Event> {
    [ReleaseEvent(id, 0, fuel), ReleaseEvent(id, 1, fuel), ReleaseEvent(id, 2, fuel)]
  }

  function ReleaseEvent(id: nat, j: nat, fuel: nat): Event {
    if j < fuel then Advance(id) else Crash(id)
  }

  lemma ThreeEvents(s: Sys, a: Event, b: Event, c: Event)
    ensures Exec(s, [a, b, c]) == Step(Step(Step(s, a), b), c)
  {
    assert [a, b, c][..2] == [a, b] && [a, b][..1] == [a] && [a][..0] == [];
    assert Exec(s, [a]) == Step(s, a);
    assert Exec(s, [a, b]) == Step(Step(s, a), b);
  }

  lemma ExecOne(s: Sys, e: Event)
    ensures Exec(s, [e]) == Step(s, e)
  {
    assert [e][..0] == [];
  }

  lemma BegunThen(s: Sys, e: Event, id: nat, fuel: nat)
    ensures Exec(s, [e] + Rest(id, fuel)) == Exec(Step(s, e), Rest(id, fuel))
  {
    ExecAppend(s, [e], Rest(id, fuel));
    ExecOne(s, e);
  }

  /** The handler has finished, died or given up: nothing else has changed. */
  ghost predicate Ended(s: Sys, t: Sys, id: nat)
    requires id in s.items
  {
    && t.items.Keys == s.items.Keys && t.items - {id} == s.items - {id}
    && t.loose == s.loose && t.now == s.now
    && t.items[id].stage == Idle
    && t.items[id].kind == s.items[id].kind && t.items[id].api == s.items[id].api
    && t.items[id].amount == s.items[id].amount && t.items[id].currency == s.items[id].currency
  }

  lemma IdleItemStays(s: Sys, id: nat, e: Event)
    requires id in s.items && s.items[id].stage == Idle && (e == Advance(id) || e == Crash(id))
    ensures Step(s, e) == s
  {
    assert s.items[id := s.items[id]] == s.items;
  }

  /** The three steps of a release: its item, and escrow once debited. */
  function Debited(s: Sys, i: Item): map<Currency, nat>
    requires Funded(s, i)
  {
    s.escrow[i.currency := Get(s.escrow, i.currency) - i.amount]
  }

  lemma AdvanceSteps(s: Sys, id: nat)
    requires id in s.items && s.items[id].stage.Debiting? && Funded(s, s.items[id])
    ensures var i := s.items[id];
            var (to, final, begun) := (i.stage.to, i.stage.final, i.stage.begun);
            var i1 := i.(stage := Crediting(to, final, begun));
            var i2 := i.(stage := Recording(to, final, begun), payments := i.payments + [Payment(to, begun)]);
            var s1 := s.(escrow := Debited(s, i), items := s.items[id := i1]);
            var s2 := s.(escrow := Debited(s, i), items := s.items[id := i2]);
            && Step(s, Advance(id)) == s1
            && Step(s1, Advance(id)) == s2
            && Step(s2, Advance(id)) == s2.(items := s.items[id := i2.(stage := Idle, status := final)])
            && Step(s, Crash(id)) == s.(items := s.items[id := Dead(i)])
            && Step(s1, Crash(id)) == s1.(items := s.items[id := Dead(i1)])
            && Step(s2, Crash(id)) == s2.(items := s.items[id := Dead(i2)])
  {
  }

  /** The same release as transactions: what escrow holds wherever it stops. */
  lemma ReleaseStops(l: Ledger, p: Platform, to: Wallet, a: nat, c: Currency, fuel: nat)
    requires a > 0 && to != p.escrow
    ensures var o := Run(l, ReleasePlan(p, to, a, c), fuel);
            if Balance(l, p.escrow, c) < a then o == Outcome(l, fuel, false)
            else
              && o.fuel == (if fuel < 2 then 0 else fuel - 2) && (o.done <==> fuel >= 2)
              && forall x :: Balance(o.ledger, p.escrow, x)
                          == Balance(l, p.escrow, x) - if x == c && fuel >= 1 then a else 0
  {
    var plan := ReleasePlan(p, to, a, c);
    assert plan[0] == Debit(p.escrow, a, c) && plan[1..] == [Credit(to, a, c)];
    assert [Credit(to, a, c)][1..] == [];
    if Balance(l, p.escrow, c) >= a && fuel >= 1 {
      var l1 := Vault.Execute(l, plan[0]).value;
      var l2 := Vault.Execute(l1, Credit(to, a, c)).value;
      assert Run(l, plan, fuel) == Run(l1, [Credit(to, a, c)], fuel - 1);
      if fuel >= 2 {
        assert Run(l1, [Credit(to, a, c)], fuel - 1) == Outcome(l2, fuel - 2, true);
      }
    }
  }

  lemma FundedAlone(s: Sys, id: nat, fuel: nat)
    requires id in s.items && s.items[id].stage.Debiting? && Funded(s, s.items[id])
    ensures var i, t := s.items[id], Exec(s, Rest(id, fuel));
            && Ended(s, t, id)
            && t.escrow == (if fuel >= 1 then Debited(s, i) else s.escrow)
            && t.items[id].status == (if fuel >= 3 then i.stage.final else i.status)
            && t.items[id].payments == i.payments + (if fuel >= 2 then [Payment(i.stage.to, i.stage.begun)] else [])
  {
    AdvanceSteps(s, id);
    ThreeEvents(s, ReleaseEvent(id, 0, fuel), ReleaseEvent(id, 1, fuel), ReleaseEvent(id, 2, fuel));
    var s1 := Step(s, ReleaseEvent(id, 0, fuel));
    var s2 := Step(s1, ReleaseEvent(id, 1, fuel));
    if fuel == 0 {
      IdleItemStays(s1, id, Crash(id));
      IdleItemStays(s2, id, Crash(id));
    } else if fuel == 1 {
      IdleItemStays(s2, id, Crash(id));
    }
  }

  lemma UnfundedStep(s: Sys, id: nat, e: Event)
    requires id in s.items && s.items[id].stage.Debiting? && !Funded(s, s.items[id])
    requires e == Advance(id) || e == Crash(id)
    ensures Step(s, e) == Put(s, id, s.items[id].(stage := Idle))
  {
  }

  lemma UnfundedAlone(s: Sys, id: nat, fuel: nat)
    requires id in s.items && s.items[id].stage.Debiting? && !Funded(s, s.items[id])
    ensures Exec(s, Rest(id, fuel)) == Put(s, id, s.items[id].(stage := Idle))
  {
    var s1 := Put(s, id, s.items[id].(stage := Idle));
    ThreeEvents(s, ReleaseEvent(id, 0, fuel), ReleaseEvent(id, 1, fuel), ReleaseEvent(id, 2, fuel));
    UnfundedStep(s, id, ReleaseEvent(id, 0, fuel));
    IdleItemStays(s1, id, ReleaseEvent(id, 1, fuel));
    IdleItemStays(s1, id, ReleaseEvent(id, 2, fuel));
  }

  /** A release alone: the machine ends with the escrow of the ledger, has paid exactly when
      the credit landed, and has recorded exactly when the handler would have. */
  lemma ReleaseAlone(s: Sys, id: nat, l: Ledger, p: Platform, fuel: nat)
    requires id in s.items && s.items[id].stage.Debiting? && s.items[id].amount > 0
    requires SameEscrow(s, l, p) && s.items[id].stage.to != p.escrow
    ensures var i, t := s.items[id], Exec(s, Rest(id, fuel));
            var o := Run(l, ReleasePlan(p, i.stage.to, i.amount, i.currency), fuel);
            && Ended(s, t, id) && SameEscrow(t, o.ledger, p)
            && t.items[id].status == (if o.done && o.fuel > 0 then i.stage.final else i.status)
            && t.items[id].payments == i.payments + (if o.done then [Payment(i.stage.to, i.stage.begun)] else [])
  {
    var i := s.items[id];
    ReleaseStops(l, p, i.stage.to, i.amount, i.currency, fuel);
    if Funded(s, i) {
      FundedAlone(s, id, fuel);
    } else {
      UnfundedAlone(s, id, fuel);
    }
  }

  // ---- Claims ----

  /** The item of a claim row nobody is handling. */
  ghost predicate Stands(i: Item, row: S.ClaimRow) {
    && i.kind == Claim(row.sender, row.expires) && i.amount == row.amount && i.currency == row.currency
    && i.stage == Idle
    && i.status == match row.status
                   case Pending => Status.Pending
                   case Claimed(w) => Status.Claimed(w)
                   case Reclaimed => Status.Reclaimed
  }

  /** redeemClaim past its checks is the redeem event and the release: row and item, ledger
      and escrow agree afterwards, wherever the process died. */
  lemma RedeemAlone(s: Sys, id: nat, row: S.ClaimRow, to: Wallet, l: Ledger, p: Platform, fuel: nat)
    requires id in s.items && Stands(s.items[id], row) && row.amount > 0
    requires row.status == S.ClaimStatus.Pending && row.expires >= s.now
    requires SameEscrow(s, l, p) && to != p.escrow
    ensures var o := Run(l, ReleasePlan(p, to, row.amount, row.currency), fuel);
            var t := Exec(s, [Redeem(id, to)] + Rest(id, fuel));
            && id in t.items && SameEscrow(t, o.ledger, p)
            && Stands(t.items[id], if o.done && o.fuel > 0 then row.(status := S.ClaimStatus.Claimed(to)) else row)
            && t.items - {id} == s.items - {id}
  {
    var s1 := Step(s, Redeem(id, to));
    assert s1 == Put(s, id, s.items[id].(stage := Debiting(to, Status.Claimed(to), s.now)));
    BegunThen(s, Redeem(id, to), id, fuel);
    ReleaseAlone(s1, id, l, p, fuel);
    assert s1.items - {id} == s.items - {id};
  }

  /** One row of the reclaim pass is the reclaim event and the release. */
  lemma ReclaimAlone(s: Sys, id: nat, pass: S.Pass, key: string, p: Platform)
    requires id in s.items && key in pass.claims && Stands(s.items[id], pass.claims[key]) && pass.claims[key].amount > 0
    requires S.Reclaimable(pass.claims[key], s.now)
    requires SameEscrow(s, pass.ledger, p) && pass.claims[key].sender != p.escrow
    ensures var after := S.ReclaimOne(p, pass, key);
            var t := Exec(s, [Reclaim(id)] + Rest(id, pass.fuel));
            && id in t.items && SameEscrow(t, after.ledger, p)
            && Stands(t.items[id], after.claims[key])
            && t.items - {id} == s.items - {id}
  {
    var sender := pass.claims[key].sender;
    var s1 := Step(s, Reclaim(id));
    assert s1 == Put(s, id, s.items[id].(stage := Debiting(sender, Status.Reclaimed, s.now)));
    BegunThen(s, Reclaim(id), id, pass.fuel);
    ReleaseAlone(s1, id, pass.ledger, p, pass.fuel);
    assert s1.items - {id} == s.items - {id};
  }

  // ---- Sales ----

  function FinalStatus(f: F.SaleStatus): Status {
    match f
    case PendingFulfilment => Status.Pending
    case Paid => Status.Paid
    case Refunded => Status.Refunded
  }

  /** A sale whose fulfilment call is not under way; a call that was never answered leaves
      the machine's item as it was. */
  ghost predicate StandsSale(i: Item, sale: F.Sale) {
    && i.kind == Kind.Sale(sale.merchant, sale.consumer) && i.amount == sale.amount && i.currency == sale.currency
    && i.status == FinalStatus(sale.status)
    && i.api == (if sale.api == F.ApiStatus.Success then Api.Success
                 else if sale.api == F.ApiStatus.Failed then Api.Failed else NoOutcome)
  }

  lemma ProcessItem(i: Item, sale: F.Sale, success: bool, now: int)
    requires StandsSale(i, sale) && i.stage == Idle
    ensures var (after, release) := F.Process(sale, success);
            var k := Settle(Processed(i), success, now);
            && StandsSale(k, after)
            && k.stage == (if release.None? then Idle
                           else Debiting(release.value.to, FinalStatus(release.value.final), now))
  {
  }

  lemma ProcessEvents(s: Sys, id: nat, success: bool)
    requires id in s.items
    ensures Step(Step(s, Process(id)), ApiReturns(id, success))
         == Put(s, id, Settle(Processed(s.items[id]), success, s.now))
  {
    var s1 := Put(s, id, Processed(s.items[id]));
    assert Step(s, Process(id)) == s1;
    assert Step(s1, ApiReturns(id, success)) == Put(s1, id, Settle(s1.items[id], success, s.now));
  }

  /** processSaleFulfilment is the process event and the API's answer: the item carries the
      recorded outcome, and stands before the scheduled release if there is one. */
  lemma ProcessAlone(s: Sys, id: nat, sale: F.Sale, success: bool)
    requires id in s.items && StandsSale(s.items[id], sale) && s.items[id].stage == Idle
    ensures var (after, release) := F.Process(sale, success);
            var t := Step(Step(s, Process(id)), ApiReturns(id, success));
            && id in t.items && StandsSale(t.items[id], after) && t.escrow == s.escrow
            && t.items[id].stage == (if release.None? then Idle
                                     else Debiting(release.value.to, FinalStatus(release.value.final), s.now))
            && t.items - {id} == s.items - {id}
  {
    ProcessItem(s.items[id], sale, success, s.now);
    ProcessEvents(s, id, success);
  }

  /** The background release of that sale is the rest of the machine's handler. */
  lemma BackgroundAlone(s: Sys, id: nat, sale: F.Sale, r: F.Release, l: Ledger, p: Platform, fuel: nat)
    requires id in s.items && StandsSale(s.items[id], sale) && sale.amount > 0
    requires sale.status == F.SaleStatus.PendingFulfilment
    requires s.items[id].stage == Debiting(r.to, FinalStatus(r.final), s.now)
    requires SameEscrow(s, l, p) && r.to != p.escrow
    ensures var o := Run(l, ReleasePlan(p, r.to, sale.amount, sale.currency), fuel);
            var t := Exec(s, Rest(id, fuel));
            && id in t.items && SameEscrow(t, o.ledger, p)
            && StandsSale(t.items[id], if o.done && o.fuel > 0 then sale.(status := r.final) else sale)
            && t.items - {id} == s.items - {id}
  {
    ReleaseAlone(s, id, l, p, fuel);
  }

  // ---- Undisturbed runs ----

  /** An item comes into being exactly for a fresh id and a positive amount that loose value
      covers; it is what the event says, waits for its handler, and takes its amount from the
      loose value. */
  lemma OpensItem(s: Sys, e: Event)
    requires (e.OpenClaim? || e.OpenSale?) && e.id !in s.items
    ensures var t := Step(s, e);
            var kind := if e.OpenClaim? then Claim(e.sender, s.now + e.ttl) else Sale(e.merchant, e.consumer);
            if 0 < e.amount <= Get(s.loose, e.currency)
            then
              && t.items == s.items[e.id := Item(kind, e.amount, e.currency, Status.Pending, NoOutcome, Idle, [], 0, 0)]
              && t.loose == s.loose[e.currency := Get(s.loose, e.currency) - e.amount]
              && t.escrow == s.escrow && t.now == s.now
            else t == s
  {
  }

  /** From s to t the release of an item was completed: recorded, and paid out of escrow. */
  ghost predicate Released(s: Sys, t: Sys, id: nat, to: Wallet, final: Status)
    requires id in s.items && Funded(s, s.items[id])
  {
    var i := s.items[id];
    && id in t.items && t.items - {id} == s.items - {id}
    && t.items[id].status == final && t.items[id].payments == i.payments + [Payment(to, s.now)]
    && t.items[id].amount == i.amount && t.items[id].currency == i.currency
    && t.escrow == s.escrow[i.currency := Get(s.escrow, i.currency) - i.amount]
  }

  lemma ReleaseEnds(s: Sys, id: nat, to: Wallet, final: Status)
    requires id in s.items && s.items[id].stage == Debiting(to, final, s.now) && Funded(s, s.items[id])
    ensures Released(s, Exec(s, Rest(id, 3)), id, to, final)
  {
    FundedAlone(s, id, 3);
    EndsReleased(s, Exec(s, Rest(id, 3)), id, to, final);
  }

  lemma EndsReleased(s: Sys, t: Sys, id: nat, to: Wallet, final: Status)
    requires id in s.items && Funded(s, s.items[id]) && Ended(s, t, id)
    requires t.escrow == Debited(s, s.items[id]) && t.items[id].status == final
    requires t.items[id].payments == s.items[id].payments + [Payment(to, s.now)]
    ensures Released(s, t, id, to, final)
  {
  }

  /** A sale from its opening to its end: with the API's consent the merchant is paid the
      amount, with its refusal the consumer gets it back, and without a consumer nothing
      leaves escrow. */
  lemma SaleRuns(s: Sys, id: nat, m: Wallet, w: Option<Wallet>, a: nat, c: Currency, success: bool)
    requires id !in s.items && 0 < a <= Get(s.loose, c) && a <= Get(s.escrow, c)
    ensures var asked := Step(Step(s, OpenSale(id, m, w, a, c)), Process(id));
            var t := Exec(Step(asked, ApiReturns(id, success)), Rest(id, 3));
            && id in t.items && t.items[id].amount == a && t.items[id].currency == c
            && if success
               then t.items[id].status == Paid && t.items[id].payments == [Payment(m, s.now)]
                    && t.escrow == s.escrow[c := Get(s.escrow, c) - a]
               else if w.Some?
               then t.items[id].status == Refunded && t.items[id].payments == [Payment(w.value, s.now)]
                    && t.escrow == s.escrow[c := Get(s.escrow, c) - a]
               else t.items[id].status == Status.Pending && t.items[id].payments == [] && t.escrow == s.escrow
  {
    SaleOpened(s, id, m, w, a, c);
    SaleEnds(Step(Step(s, OpenSale(id, m, w, a, c)), Process(id)), id, success);
  }

  lemma SaleOpened(s: Sys, id: nat, m: Wallet, w: Option<Wallet>, a: nat, c: Currency)
    requires id !in s.items && 0 < a <= Get(s.loose, c)
    ensures var asked := Step(Step(s, OpenSale(id, m, w, a, c)), Process(id));
            && id in asked.items && asked.escrow == s.escrow && asked.now == s.now
            && asked.items[id] == Item(Sale(m, w), a, c, Status.Pending, NoOutcome, CallingApi, [], 0, 0)
  {
    OpensItem(s, OpenSale(id, m, w, a, c));
    SaleAsks(Step(s, OpenSale(id, m, w, a, c)), id);
  }

  lemma SaleEnds(s: Sys, id: nat, success: bool)
    requires id in s.items && s.items[id].stage == CallingApi && s.items[id].kind.Sale? && Funded(s, s.items[id])
    requires s.items[id].status == Status.Pending && s.items[id].payments == []
    ensures var i, t := s.items[id], Exec(Step(s, ApiReturns(id, success)), Rest(id, 3));
            && id in t.items && t.items[id].amount == i.amount && t.items[id].currency == i.currency
            && if success
               then t.items[id].status == Paid && t.items[id].payments == [Payment(i.kind.merchant, s.now)]
                    && t.escrow == s.escrow[i.currency := Get(s.escrow, i.currency) - i.amount]
               else if i.kind.consumer.Some?
               then t.items[id].status == Refunded && t.items[id].payments == [Payment(i.kind.consumer.value, s.now)]
                    && t.escrow == s.escrow[i.currency := Get(s.escrow, i.currency) - i.amount]
               else t.items[id].status == Status.Pending && t.items[id].payments == [] && t.escrow == s.escrow
  {
    var i, answered := s.items[id], Step(s, ApiReturns(id, success));
    SaleAnswered(s, id, success);
    if success {
      ReleaseEnds(answered, id, i.kind.merchant, Paid);
    } else if i.kind.consumer.Some? {
      ReleaseEnds(answered, id, i.kind.consumer.value, Refunded);
    } else {
      IdleRest(answered, id);
    }
  }

  lemma SaleAsks(s: Sys, id: nat)
    requires id in s.items && Free(s.items[id]) && s.items[id].kind.Sale? && s.items[id].api == NoOutcome
    ensures Step(s, Process(id)) == Put(s, id, s.items[id].(stage := CallingApi))
  {
  }

  lemma SaleAnswered(s: Sys, id: nat, success: bool)
    requires id in s.items && s.items[id].stage == CallingApi && s.items[id].kind.Sale?
    ensures var i, t := s.items[id], Step(s, ApiReturns(id, success));
            && t.escrow == s.escrow && t.now == s.now && id in t.items
            && t.items[id] ==
               if success then i.(api := Success, stage := Debiting(i.kind.merchant, Paid, s.now))
               else if i.kind.consumer.None? then i.(api := Failed, stage := Idle)
               else i.(api := Failed, stage := Debiting(i.kind.consumer.value, Refunded, s.now))
  {
  }

  lemma IdleRest(s: Sys, id: nat)
    requires id in s.items && s.items[id].stage == Idle
    ensures Exec(s, Rest(id, 3)) == s
  {
    ThreeEvents(s, ReleaseEvent(id, 0, 3), ReleaseEvent(id, 1, 3), ReleaseEvent(id, 2, 3));
    IdleItemStays(s, id, Advance(id));
  }

  /** A claim that is open at the time: who may begin what. */
  lemma ClaimBegins(s: Sys, id: nat, to: Wallet)
    requires id in s.items && Free(s.items[id]) && s.items[id].kind.Claim?
    ensures var i := s.items[id];
            if s.now <= i.kind.expires
            then Step(s, Redeem(id, to)) == Put(s, id, i.(stage := Debiting(to, Status.Claimed(to), s.now)))
                 && Step(s, Reclaim(id)) == s
            else Step(s, Reclaim(id)) == Put(s, id, i.(stage := Debiting(i.kind.sender, Status.Reclaimed, s.now)))
                 && Step(s, Redeem(id, to)) == s
  {
    assert s.items[id := s.items[id]] == s.items;
  }

  lemma ClaimWaits(s: Sys, id: nat, sender: Wallet, ttl: nat, a: nat, c: Currency, later: int)
    requires id !in s.items && 0 < a <= Get(s.loose, c) && s.now <= later
    ensures var open := Step(Step(s, OpenClaim(id, sender, ttl, a, c)), Clock(later));
            && id in open.items
            && open.items[id] == Item(Claim(sender, s.now + ttl), a, c, Status.Pending, NoOutcome, Idle, [], 0, 0)
            && open.escrow == s.escrow && open.now == later
  {
    OpensItem(s, OpenClaim(id, sender, ttl, a, c));
  }

  lemma ClaimEnds(s: Sys, id: nat, to: Wallet)
    requires id in s.items && Free(s.items[id]) && s.items[id].kind.Claim? && Funded(s, s.items[id])
    ensures var i := s.items[id];
            var inTime := s.now <= i.kind.expires;
            var t := Exec(Step(s, if inTime then Redeem(id, to) else Reclaim(id)), Rest(id, 3));
            && Step(s, if inTime then Reclaim(id) else Redeem(id, to)) == s
            && id in t.items && t.items[id].amount == i.amount && t.items[id].currency == i.currency
            && t.items[id].status == (if inTime then Status.Claimed(to) else Status.Reclaimed)
            && t.items[id].payments == i.payments + [Payment(if inTime then to else i.kind.sender, s.now)]
            && t.escrow == s.escrow[i.currency := Get(s.escrow, i.currency) - i.amount]
  {
    var i := s.items[id];
    ClaimBegins(s, id, to);
    if s.now <= i.kind.expires {
      PutReleased(s, id, to, Status.Claimed(to));
    } else {
      PutReleased(s, id, i.kind.sender, Status.Reclaimed);
    }
  }

  lemma PutReleased(s: Sys, id: nat, to: Wallet, final: Status)
    requires id in s.items && Funded(s, s.items[id])
    ensures var i := s.items[id];
            var t := Exec(Put(s, id, i.(stage := Debiting(to, final, s.now))), Rest(id, 3));
            && id in t.items && t.items[id].amount == i.amount && t.items[id].currency == i.currency
            && t.items[id].status == final && t.items[id].payments == i.payments + [Payment(to, s.now)]
            && t.escrow == s.escrow[i.currency := Get(s.escrow, i.currency) - i.amount]
  {
    ReleaseEnds(Put(s, id, s.items[id].(stage := Debiting(to, final, s.now))), id, to, final);
  }

  /** A claim from its opening to its end: up to its expiry it can be redeemed and not
      reclaimed, after it reclaimed and not redeemed, and whoever does so is paid. */
  lemma ClaimRuns(s: Sys, id: nat, sender: Wallet, to: Wallet, ttl: nat, a: nat, c: Currency, later: int)
    requires id !in s.items && 0 < a <= Get(s.loose, c) && a <= Get(s.escrow, c) && s.now <= later
    ensures var open := Step(Step(s, OpenClaim(id, sender, ttl, a, c)), Clock(later));
            var inTime := later <= s.now + ttl;
            var t := Exec(Step(open, if inTime then Redeem(id, to) else Reclaim(id)), Rest(id, 3));
            && Step(open, if inTime then Reclaim(id) else Redeem(id, to)) == open
            && id in t.items && t.items[id].amount == a && t.items[id].currency == c
            && t.items[id].status == (if inTime then Status.Claimed(to) else Status.Reclaimed)
            && t.items[id].payments == [Payment(if inTime then to else sender, later)]
            && t.escrow == s.escrow[c := Get(s.escrow, c) - a]
  {
    ClaimWaits(s, id, sender, ttl, a, c, later);
    ClaimEnds(Step(Step(s, OpenClaim(id, sender, ttl, a, c)), Clock(later)), id, to);
  }

  // ---- What crashes cost ----

  /** A claim of 10 with its value in escrow. */
  function Opening(c: Currency): seq<Event> {
    [Deposit(10, c), OpenClaim(0, 1, 5, 10, c)]
  }

  lemma Opened(c: Currency)
    ensures Exec(Start(), Opening(c))
         == Sys(map[c := 10], map[c := 0],
                map[0 := Item(Claim(1, 5), 10, c, Status.Pending, NoOutcome, Idle, [], 0, 0)], 0)
  {
    assert Opening(c) == [Deposit(10, c)] + [OpenClaim(0, 1, 5, 10, c)];
    ExecAppend(Start(), [Deposit(10, c)], [OpenClaim(0, 1, 5, 10, c)]);
    ExecOne(Start(), Deposit(10, c));
    ExecOne(Step(Start(), Deposit(10, c)), OpenClaim(0, 1, 5, 10, c));
  }

  /** The claim is still open to its recipient. */
  predicate StillOpen(s: Sys, c: Currency) {
    && 0 in s.items && s.now == 0
    && s.items[0].kind == Claim(1, 5) && s.items[0].amount == 10 && s.items[0].currency == c && Free(s.items[0])
  }

  lemma RedeemBegins(s: Sys, c: Currency)
    requires StillOpen(s, c)
    ensures var t := Step(s, Redeem(0, 2));
            && t == Put(s, 0, s.items[0].(stage := Debiting(2, Status.Claimed(2), 0)))
            && t.items.Keys == s.items.Keys
  {
  }

  /** A redemption that pays, and records unless it dies first. */
  function Redemption(fuel: nat): seq<Event> {
    [Redeem(0, 2)] + Rest(0, fuel)
  }

  lemma RedeemPays(s: Sys, c: Currency, fuel: nat)
    requires StillOpen(s, c) && Get(s.escrow, c) >= 10 && fuel >= 2
    ensures var t := Exec(s, Redemption(fuel));
            && 0 in t.items && t.items.Keys == s.items.Keys
            && t.items[0].payments == s.items[0].payments + [Payment(2, 0)]
            && t.escrow == s.escrow[c := Get(s.escrow, c) - 10]
            && if fuel == 2 then StillOpen(t, c) else t.items[0].status == Status.Claimed(2)
  {
    BegunThen(s, Redeem(0, 2), 0, fuel);
    RedeemBegins(s, c);
    var s1 := Step(s, Redeem(0, 2));
    FundedAlone(s1, 0, fuel);
    RedeemEnds(s, c, fuel, s1, Exec(s1, Rest(0, fuel)));
  }

  lemma RedeemEnds(s: Sys, c: Currency, fuel: nat, s1: Sys, t: Sys)
    requires StillOpen(s, c) && Get(s.escrow, c) >= 10 && fuel >= 2
    requires s1 == Put(s, 0, s.items[0].(stage := Debiting(2, Status.Claimed(2), 0)))
    requires Ended(s1, t, 0) && t.escrow == Debited(s1, s1.items[0])
    requires t.items[0].status == if fuel >= 3 then Status.Claimed(2) else s.items[0].status
    ensures t.items.Keys == s.items.Keys && t.escrow == s.escrow[c := Get(s.escrow, c) - 10]
    ensures if fuel == 2 then StillOpen(t, c) else t.items[0].status == Status.Claimed(2)
  {
  }

  /** The case in which escrow does not cover the pending rows: one redemption that died
      when it had paid and not recorded. */
  lemma CrashLeavesShort(c: Currency)
    ensures var s := Exec(Start(), Opening(c) + Redemption(2));
            Get(s.escrow, c) < Total(Undebited(s, c)) && Total(Lost(s, c)) > Get(s.loose, c)
  {
    Opened(c);
    ExecAppend(Start(), Opening(c), Redemption(2));
    RedeemPays(Exec(Start(), Opening(c)), c, 2);
    var s := Exec(Start(), Opening(c) + Redemption(2));
    TotalRemove(Undebited(s, c), 0);
    assert Undebited(s, c) - {0} == map[];
    EscrowCoversAll(Opening(c) + Redemption(2), c);
  }

  lemma {:induction false} CrashesAppend(a: seq<Event>, b: seq<Event>, id: nat)
    ensures Crashes(a + b, id) == Crashes(a, id) + Crashes(b, id)
  {
    if b == [] {
      assert a + b == a;
    } else {
      var n := |b| - 1;
      assert (a + b)[..|a| + n] == a + b[..n];
      CrashesAppend(a, b[..n], id);
    }
  }

  lemma CrashesOne(e: Event)
    ensures Crashes([e], 0) == if e == Crash(0) then 1 else 0
  {
    assert [e][..0] == [];
  }

  lemma CrashesInRound(c: Currency, fuel: nat)
    requires 2 <= fuel <= 3
    ensures Crashes([Deposit(10, c)] + Redemption(fuel), 0) == 3 - fuel
  {
    var last := ReleaseEvent(0, 2, fuel);
    assert [Deposit(10, c)] + Redemption(fuel)
        == [Deposit(10, c)] + ([Redeem(0, 2)] + ([Advance(0)] + ([Advance(0)] + [last])));
    CrashesAppend([Deposit(10, c)], [Redeem(0, 2)] + ([Advance(0)] + ([Advance(0)] + [last])), 0);
    CrashesAppend([Redeem(0, 2)], [Advance(0)] + ([Advance(0)] + [last]), 0);
    CrashesAppend([Advance(0)], [Advance(0)] + [last], 0);
    CrashesAppend([Advance(0)], [last], 0);
    CrashesOne(Deposit(10, c));
    CrashesOne(Redeem(0, 2));
    CrashesOne(Advance(0));
    CrashesOne(last);
  }

  /** n deposits, each followed by a redemption that dies so. */
  function Deaths(c: Currency, n: nat): seq<Event> {
    if n == 0 then Opening(c) else Deaths(c, n - 1) + ([Deposit(10, c)] + Redemption(2))
  }

  /** One more round: what it adds to payments and crashes. */
  lemma RoundAdds(es: seq<Event>, c: Currency, fuel: nat)
    requires StillOpen(Exec(Start(), es), c) && 2 <= fuel <= 3
    ensures var next := es + ([Deposit(10, c)] + Redemption(fuel));
            var s, t := Exec(Start(), es), Exec(Start(), next);
            && Crashes(next, 0) == Crashes(es, 0) + 3 - fuel
            && 0 in t.items && |t.items[0].payments| == |s.items[0].payments| + 1
            && if fuel == 2 then StillOpen(t, c) else t.items[0].status == Status.Claimed(2)
  {
    ExecAppend(Start(), es, [Deposit(10, c)] + Redemption(fuel));
    var s := Exec(Start(), es);
    ExecAppend(s, [Deposit(10, c)], Redemption(fuel));
    ExecOne(s, Deposit(10, c));
    RedeemPays(Step(s, Deposit(10, c)), c, fuel);
    CrashesAppend(es, [Deposit(10, c)] + Redemption(fuel), 0);
    CrashesInRound(c, fuel);
  }

  lemma OpeningStands(c: Currency)
    ensures var s := Exec(Start(), Opening(c));
            StillOpen(s, c) && s.items[0].payments == [] && Crashes(Opening(c), 0) == 0
  {
    Opened(c);
    assert Opening(c) == [Deposit(10, c)] + [OpenClaim(0, 1, 5, 10, c)];
    CrashesAppend([Deposit(10, c)], [OpenClaim(0, 1, 5, 10, c)], 0);
    CrashesOne(Deposit(10, c));
    CrashesOne(OpenClaim(0, 1, 5, 10, c));
  }

  lemma {:induction false} DeathsPay(c: Currency, n: nat)
    ensures var s := Exec(Start(), Deaths(c, n));
            StillOpen(s, c) && |s.items[0].payments| == n && Crashes(Deaths(c, n), 0) == n
  {
    if n == 0 {
      OpeningStands(c);
      assert Deaths(c, n) == Opening(c);
    } else {
      var es := Deaths(c, n - 1);
      DeathsPay(c, n - 1);
      RoundAdds(es, c, 2);
      assert Deaths(c, n) == es + ([Deposit(10, c)] + Redemption(2));
    }
  }

  /** The bound on payments is reached: for every n there is a run in which a claim is
      redeemed, its handlers having crashed n times, and its recipient paid n + 1 times. */
  lemma PaidOnceIsReached(c: Currency, n: nat)
    ensures var es := Deaths(c, n) + ([Deposit(10, c)] + Redemption(3));
            var s := Exec(Start(), es);
            && Crashes(es, 0) == n
            && 0 in s.items && s.items[0].status == Status.Claimed(2) && |s.items[0].payments| == n + 1
  {
    DeathsPay(c, n);
    RoundAdds(Deaths(c, n), c, 3);
  }
}
