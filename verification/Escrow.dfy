/** Escrow over whole runs: WhatsApp claims (escrowService.ts) and merchant sales
    (fulfilmentService.ts) share one custodial balance. Each item is handled by at most
    one handler at a time; different items interleave freely, and a handler may die
    between any two of its steps. */
module Escrow {
  import opened Wrappers
  import opened Sums
  import opened Vault

  datatype Kind =
    | Claim(sender: Wallet, expires: int)
    | Sale(merchant: Wallet, consumer: Option<Wallet>)

  datatype Status = Pending | Claimed(claimant: Wallet) | Reclaimed | Paid | Refunded

  datatype Api = NoOutcome | Success | Failed

  /** Where the handler of an item stands; final is the status it will record. */
  datatype Stage =
    | Idle
    | CallingApi
    | Debiting(to: Wallet, final: Status, begun: int)
    | Crediting(to: Wallet, final: Status, begun: int)
    | Recording(to: Wallet, final: Status, begun: int)

  datatype Payment = Payment(to: Wallet, begun: int)

  /** payments are the credits sent out of escrow for the item; unrecorded counts those
      whose handler died before updating the row, and abandoned is the value debited by
      handlers that died before updating the row. */
  datatype Item = Item(
    kind: Kind, amount: nat, currency: Currency, status: Status, api: Api, stage: Stage,
    payments: seq<Payment>, unrecorded: nat, abandoned: nat)

  /** loose is escrow value that no row refers to yet. */
  datatype Sys = Sys(escrow: map<Currency, nat>, loose: map<Currency, nat>, items: map<nat, Item>, now: int)

  datatype Event =
    | Clock(now: int)
    | Deposit(amount: nat, currency: Currency)
    | OpenClaim(id: nat, sender: Wallet, ttl: nat, amount: nat, currency: Currency)
    | OpenSale(id: nat, merchant: Wallet, consumer: Option<Wallet>, amount: nat, currency: Currency)
    | Redeem(id: nat, to: Wallet)
    | Reclaim(id: nat)
    | Process(id: nat)
    | ApiReturns(id: nat, success: bool)
    | Advance(id: nat)
    | Crash(id: nat)

  function Open(s: Sys, id: nat, kind: Kind, a: nat, c: Currency): Sys {
    if id in s.items || a == 0 || Get(s.loose, c) < a then s
    else Put(s.(loose := s.loose[c := Get(s.loose, c) - a]), id,
             Item(kind, a, c, Pending, NoOutcome, Idle, [], 0, 0))
  }

  function Put(s: Sys, id: nat, i: Item): Sys {
    s.(items := s.items[id := i])
  }

  predicate Free(i: Item) {
    i.status == Pending && i.stage == Idle
  }

  function Redeemed(i: Item, to: Wallet, now: int): Item {
    if !Free(i) || !i.kind.Claim? || i.kind.expires < now then i
    else i.(stage := Debiting(to, Claimed(to), now))
  }

  function Swept(i: Item, now: int): Item {
    if !Free(i) || !i.kind.Claim? || i.kind.expires >= now then i
    else i.(stage := Debiting(i.kind.sender, Reclaimed, now))
  }

  function Processed(i: Item): Item {
    if !Free(i) || !i.kind.Sale? || i.api != NoOutcome then i else i.(stage := CallingApi)
  }

  /** The API outcome is recorded first; the release is scheduled behind it. */
  function Settle(i: Item, success: bool, now: int): Item {
    if i.stage != CallingApi || !i.kind.Sale? then i
    else if success then i.(api := Success, stage := Debiting(i.kind.merchant, Paid, now))
    else if i.kind.consumer.None? then i.(api := Failed, stage := Idle)
    else i.(api := Failed, stage := Debiting(i.kind.consumer.value, Refunded, now))
  }

  /** The next step of a release: debit escrow, credit the payee, update the row. */
  function Advanced(i: Item, funded: bool): Item {
    match i.stage
    case Debiting(to, final, begun) => i.(stage := if funded then Crediting(to, final, begun) else Idle)
    case Crediting(to, final, begun) =>
      i.(stage := Recording(to, final, begun), payments := i.payments + [Payment(to, begun)])
    case Recording(_, final, _) => i.(stage := Idle, status := final)
    case _ => i
  }

  function Dead(i: Item): Item {
    match i.stage
    case Crediting(_, _, _) => i.(stage := Idle, abandoned := i.abandoned + i.amount)
    case Recording(_, _, _) =>
      i.(stage := Idle, abandoned := i.abandoned + i.amount, unrecorded := i.unrecorded + 1)
    case _ => i.(stage := Idle)
  }

  predicate Funded(s: Sys, i: Item) {
    Get(s.escrow, i.currency) >= i.amount
  }

  function Touch(i: Item, e: Event, now: int, funded: bool): Item {
    match e
    case Redeem(_, to) => Redeemed(i, to, now)
    case Reclaim(_) => Swept(i, now)
    case Process(_) => Processed(i)
    case ApiReturns(_, success) => Settle(i, success, now)
    case Advance(_) => Advanced(i, funded)
    case Crash(_) => Dead(i)
    case _ => i
  }

  predicate TakesEscrow(i: Item, e: Event, funded: bool) {
    e.Advance? && i.stage.Debiting? && funded
  }

  function Step(s: Sys, e: Event): Sys {
    match e
    case Clock(now) => if now < s.now then s else s.(now := now)
    case Deposit(a, c) =>
      s.(escrow := s.escrow[c := Get(s.escrow, c) + a], loose := s.loose[c := Get(s.loose, c) + a])
    case OpenClaim(id, sender, ttl, a, c) => Open(s, id, Claim(sender, s.now + ttl), a, c)
    case OpenSale(id, m, w, a, c) => Open(s, id, Sale(m, w), a, c)
    case _ => if e.id in s.items then ItemStep(s, e.id, e) else s
  }

  function ItemStep(s: Sys, id: nat, e: Event): Sys
    requires id in s.items
  {
    var i := s.items[id];
    var t := Put(s, id, Touch(i, e, s.now, Funded(s, i)));
    if TakesEscrow(i, e, Funded(s, i))
    then t.(escrow := s.escrow[i.currency := Get(s.escrow, i.currency) - i.amount])
    else t
  }

  function Exec(s: Sys, es: seq<Event>): Sys {
    if es == [] then s else Step(Exec(s, es[..|es| - 1]), es[|es| - 1])
  }

  lemma {:induction false} ExecAppend(s: Sys, first: seq<Event>, second: seq<Event>)
    ensures Exec(s, first + second) == Exec(Exec(s, first), second)
  {
    if second == [] {
      assert first + second == first;
    } else {
      var n := |second| - 1;
      assert (first + second)[..|first| + n] == first + second[..n];
      ExecAppend(s, first, second[..n]);
    }
  }

  function Start(): Sys { Sys(map[], map[], map[], 0) }

  // ---- Conservation ----

  function InFlight(i: Item): nat {
    if i.stage.Crediting? || i.stage.Recording? then i.amount else 0
  }

  /** Value the row still promises, and value debited for it without a row update. */
  function Promised(i: Item, c: Currency): nat {
    if i.currency == c && i.status == Pending then i.amount else 0
  }

  function Unrecorded(i: Item, c: Currency): nat {
    if i.currency == c then i.abandoned + InFlight(i) else 0
  }

  ghost function Promises(s: Sys, c: Currency): map<nat, int> {
    map id | id in s.items :: Promised(s.items[id], c)
  }

  ghost function Debits(s: Sys, c: Currency): map<nat, int> {
    map id | id in s.items :: Unrecorded(s.items[id], c)
  }

  ghost predicate Balanced(s: Sys, c: Currency) {
    Get(s.escrow, c) + Total(Debits(s, c)) == Total(Promises(s, c)) + Get(s.loose, c)
  }

  lemma PutPromises(s: Sys, id: nat, i: Item, c: Currency)
    ensures Total(Promises(Put(s, id, i), c))
         == Total(Promises(s, c)) + Promised(i, c) - (if id in s.items then Promised(s.items[id], c) else 0)
  {
    assert Promises(Put(s, id, i), c) == Promises(s, c)[id := Promised(i, c)];
    TotalUpdate(Promises(s, c), id, Promised(i, c));
  }

  lemma PutDebits(s: Sys, id: nat, i: Item, c: Currency)
    ensures Total(Debits(Put(s, id, i), c))
         == Total(Debits(s, c)) + Unrecorded(i, c) - (if id in s.items then Unrecorded(s.items[id], c) else 0)
  {
    assert Debits(Put(s, id, i), c) == Debits(s, c)[id := Unrecorded(i, c)];
    TotalUpdate(Debits(s, c), id, Unrecorded(i, c));
  }

  // ---- The life of one item ----

  ghost predicate ReleaseOk(kind: Kind, api: Api, to: Wallet, final: Status, begun: int) {
    match kind
    case Claim(sender, expires) =>
      (final == Claimed(to) && begun <= expires) || (final == Reclaimed && to == sender && begun > expires)
    case Sale(merchant, consumer) =>
      || (final == Paid && to == merchant && api == Success)
      || (final == Refunded && consumer == Some(to) && api == Failed)
  }

  ghost predicate StageOk(i: Item) {
    match i.stage
    case Idle => true
    case CallingApi => i.kind.Sale? && i.api == NoOutcome
    case Debiting(to, final, begun) =>
      ReleaseOk(i.kind, i.api, to, final, begun) && (i.kind.Sale? ==> i.payments == [])
    case Crediting(to, final, begun) =>
      ReleaseOk(i.kind, i.api, to, final, begun) && (i.kind.Sale? ==> i.payments == [])
    case Recording(to, final, begun) =>
      && ReleaseOk(i.kind, i.api, to, final, begun)
      && i.payments != [] && i.payments[|i.payments| - 1] == Payment(to, begun)
  }

  ghost predicate StatusOk(i: Item) {
    i.status == Pending || (
      && i.payments != []
      && var last := i.payments[|i.payments| - 1];
         match i.status
         case Claimed(w) => i.kind.Claim? && last.to == w && last.begun <= i.kind.expires
         case Reclaimed => i.kind.Claim? && last.to == i.kind.sender && last.begun > i.kind.expires
         case Paid => i.kind.Sale? && i.api == Success && last.to == i.kind.merchant
         case Refunded => i.kind.Sale? && i.api == Failed && i.kind.consumer == Some(last.to)
         case Pending => true)
  }

  ghost predicate ItemOk(i: Item) {
    && (i.stage != Idle ==> i.status == Pending)
    && StageOk(i)
    && StatusOk(i)
    && |i.payments| == i.unrecorded + (if i.stage.Recording? then 1 else 0) + (if i.status != Pending then 1 else 0)
    && (i.kind.Claim? ==> forall p :: p in i.payments && p.begun > i.kind.expires ==> p.to == i.kind.sender)
    && (i.kind.Sale? ==> |i.payments| <= 1)
    && (i.kind.Sale? && i.api == NoOutcome ==>
          i.payments == [] && i.status == Pending && (i.stage == Idle || i.stage == CallingApi))
  }

  ghost predicate Inv(s: Sys) {
    && (forall id :: id in s.items ==> ItemOk(s.items[id]))
    && (forall c :: Balanced(s, c))
  }

  lemma BeginOk(i: Item, to: Wallet, now: int, success: bool)
    requires ItemOk(i)
    ensures ItemOk(Redeemed(i, to, now)) && ItemOk(Swept(i, now)) && ItemOk(Processed(i))
    ensures ItemOk(Settle(i, success, now))
  {
  }

  lemma CreditedOk(i: Item)
    requires ItemOk(i) && i.stage.Crediting?
    ensures ItemOk(Advanced(i, true))
  {
    var paid := Payment(i.stage.to, i.stage.begun);
    assert Advanced(i, true).payments == i.payments + [paid];
    assert forall p :: p in i.payments + [paid] ==> p in i.payments || p == paid;
  }

  lemma RecordedOk(i: Item)
    requires ItemOk(i) && i.stage.Recording?
    ensures ItemOk(Advanced(i, true))
  {
    assert i.payments[|i.payments| - 1] == Payment(i.stage.to, i.stage.begun);
  }

  lemma AdvancedOk(i: Item, funded: bool)
    requires ItemOk(i)
    ensures ItemOk(Advanced(i, funded))
  {
    if i.stage.Crediting? {
      CreditedOk(i);
    } else if i.stage.Recording? {
      RecordedOk(i);
    }
  }

  lemma DeadOk(i: Item)
    requires ItemOk(i)
    ensures ItemOk(Dead(i))
  {
  }

  /** One event moves promise minus unrecorded debits by exactly the escrow debit. */
  lemma TouchValue(i: Item, e: Event, now: int, funded: bool, c: Currency)
    requires ItemOk(i)
    ensures var j := Touch(i, e, now, funded);
            Promised(j, c) - Unrecorded(j, c) == Promised(i, c) - Unrecorded(i, c)
              - (if TakesEscrow(i, e, funded) && i.currency == c then i.amount else 0)
  {
  }

  lemma {:induction false} TouchOk(i: Item, e: Event, now: int, funded: bool)
    requires ItemOk(i)
    ensures ItemOk(Touch(i, e, now, funded))
  {
    match e
    case Redeem(_, to) => BeginOk(i, to, now, true);
    case Reclaim(_) => BeginOk(i, 0, now, true);
    case Process(_) => BeginOk(i, 0, now, true);
    case ApiReturns(_, success) => BeginOk(i, 0, now, success);
    case Advance(_) => AdvancedOk(i, funded);
    case Crash(_) => DeadOk(i);
    case _ =>
  }

  lemma TouchBalanced(s: Sys, id: nat, e: Event, c: Currency)
    requires id in s.items && ItemOk(s.items[id]) && Balanced(s, c)
    ensures Balanced(ItemStep(s, id, e), c)
  {
    var i := s.items[id];
    var j := Touch(i, e, s.now, Funded(s, i));
    var t := ItemStep(s, id, e);
    TouchValue(i, e, s.now, Funded(s, i), c);
    PutPromises(s, id, j, c);
    PutDebits(s, id, j, c);
    SameTotals(Put(s, id, j), t, c);
  }

  lemma SameTotals(s: Sys, t: Sys, c: Currency)
    requires t.items == s.items
    ensures Total(Promises(t, c)) == Total(Promises(s, c)) && Total(Debits(t, c)) == Total(Debits(s, c))
  {
    assert Promises(t, c) == Promises(s, c) && Debits(t, c) == Debits(s, c);
  }

  lemma TouchKeeps(s: Sys, id: nat, e: Event)
    requires Inv(s) && id in s.items
    ensures Inv(ItemStep(s, id, e))
  {
    TouchOk(s.items[id], e, s.now, Funded(s, s.items[id]));
    forall c ensures Balanced(ItemStep(s, id, e), c) {
      TouchBalanced(s, id, e, c);
    }
  }

  lemma OpenBalanced(s: Sys, id: nat, kind: Kind, a: nat, c: Currency, x: Currency)
    requires Balanced(s, x)
    ensures Balanced(Open(s, id, kind, a, c), x)
  {
    var t := Open(s, id, kind, a, c);
    if t != s {
      PutPromises(s, id, t.items[id], x);
      PutDebits(s, id, t.items[id], x);
      SameTotals(Put(s, id, t.items[id]), t, x);
    }
  }

  lemma OpenKeeps(s: Sys, id: nat, kind: Kind, a: nat, c: Currency)
    requires Inv(s)
    ensures Inv(Open(s, id, kind, a, c))
  {
    var t := Open(s, id, kind, a, c);
    NewItemOk(kind, a, c);
    forall k | k in t.items ensures ItemOk(t.items[k]) {
      assert k in s.items ==> t.items[k] == s.items[k];
    }
    forall x ensures Balanced(t, x) {
      OpenBalanced(s, id, kind, a, c, x);
    }
  }

  lemma NewItemOk(kind: Kind, a: nat, c: Currency)
    ensures ItemOk(Item(kind, a, c, Pending, NoOutcome, Idle, [], 0, 0))
  {
  }

  lemma OpenStep(s: Sys, e: Event)
    requires e.OpenClaim? || e.OpenSale?
    ensures Step(s, e) == Open(s, e.id, OpenedAs(s, e), e.amount, e.currency)
  {
  }

  function OpenedAs(s: Sys, e: Event): Kind
    requires e.OpenClaim? || e.OpenSale?
  {
    if e.OpenClaim? then Claim(e.sender, s.now + e.ttl) else Sale(e.merchant, e.consumer)
  }

  lemma OpenEventKeeps(s: Sys, e: Event)
    requires Inv(s) && (e.OpenClaim? || e.OpenSale?)
    ensures Inv(Step(s, e))
  {
    OpenStep(s, e);
    OpenKeeps(s, e.id, OpenedAs(s, e), e.amount, e.currency);
  }

  lemma ClockKeeps(s: Sys, now: int)
    requires Inv(s)
    ensures Inv(Step(s, Clock(now)))
  {
    SameItems(s, Step(s, Clock(now)));
  }

  lemma {:induction false} StepKeeps(s: Sys, e: Event)
    requires Inv(s)
    ensures Inv(Step(s, e))
  {
    match e
    case Clock(now) => ClockKeeps(s, now);
    case Deposit(a, c) => DepositKeeps(s, a, c);
    case OpenClaim(_, _, _, _, _) => OpenEventKeeps(s, e);
    case OpenSale(_, _, _, _, _) => OpenEventKeeps(s, e);
    case _ => ItemEventKeeps(s, e);
  }

  lemma DepositKeeps(s: Sys, a: nat, c: Currency)
    requires Inv(s)
    ensures Inv(Step(s, Deposit(a, c)))
  {
    SameItems(s, Step(s, Deposit(a, c)));
  }

  lemma {:induction false} ItemEventKeeps(s: Sys, e: Event)
    requires Inv(s) && !e.Clock? && !e.Deposit? && !e.OpenClaim? && !e.OpenSale?
    ensures Inv(Step(s, e))
  {
    if e.id in s.items {
      TouchKeeps(s, e.id, e);
      assert Step(s, e) == ItemStep(s, e.id, e);
    } else {
      assert Step(s, e) == s;
    }
  }

  lemma {:induction false} SameItems(s: Sys, t: Sys)
    requires Inv(s) && t.items == s.items
    requires forall c :: Get(t.escrow, c) - Get(t.loose, c) == Get(s.escrow, c) - Get(s.loose, c)
    ensures Inv(t)
  {
    forall c ensures Balanced(t, c) {
      assert Balanced(s, c);
      SameTotals(s, t, c);
    }
  }

  lemma {:induction false} RunKeeps(es: seq<Event>)
    ensures Inv(Exec(Start(), es))
  {
    if es == [] {
      forall c ensures Balanced(Start(), c) {
        assert Promises(Start(), c) == map[] && Debits(Start(), c) == map[];
      }
    } else {
      RunKeeps(es[..|es| - 1]);
      StepKeeps(Exec(Start(), es[..|es| - 1]), es[|es| - 1]);
    }
  }

  // ---- Main results ----

  /** In every reachable state, whatever crashed, escrow value plus the debits whose row
      was never updated is exactly what the pending rows promise plus the value no row
      refers to. So escrow covers the pending rows just when the unrecorded debits do
      not exceed the loose value. */
  lemma EscrowConservation(es: seq<Event>, c: Currency)
    ensures var s := Exec(Start(), es);
            && Get(s.escrow, c) + Total(Debits(s, c)) == Total(Promises(s, c)) + Get(s.loose, c)
            && (Get(s.escrow, c) >= Total(Promises(s, c)) <==> Total(Debits(s, c)) <= Get(s.loose, c))
  {
    RunKeeps(es);
    assert Balanced(Exec(Start(), es), c);
  }

  /** Value of a currency debited by handlers that died before their row update. */
  ghost function Lost(s: Sys, c: Currency): map<nat, int> {
    map id | id in s.items :: if s.items[id].currency == c then s.items[id].abandoned else 0
  }

  ghost function Moving(s: Sys, c: Currency): map<nat, int> {
    map id | id in s.items :: if s.items[id].currency == c then InFlight(s.items[id]) else 0
  }

  /** What is still to be debited for the pending rows. */
  ghost function Undebited(s: Sys, c: Currency): map<nat, int> {
    map id | id in s.items :: Promised(s.items[id], c) - Moving(s, c)[id]
  }

  lemma UndebitedTotal(s: Sys, c: Currency)
    requires Balanced(s, c)
    ensures Get(s.escrow, c) == Total(Undebited(s, c)) + Get(s.loose, c) - Total(Lost(s, c))
  {
    TotalMinus(Promises(s, c), Moving(s, c), Undebited(s, c));
    TotalMinus(Debits(s, c), Moving(s, c), Lost(s, c));
  }

  /** Whatever crashed: escrow can pay for all pending rows of a currency together, those
      not yet debited, exactly when the value its lost handlers debited is covered by value
      no row refers to. */
  lemma EscrowCoversAll(es: seq<Event>, c: Currency)
    ensures var s := Exec(Start(), es);
            Get(s.escrow, c) >= Total(Undebited(s, c)) <==> Total(Lost(s, c)) <= Get(s.loose, c)
  {
    RunKeeps(es);
    assert Balanced(Exec(Start(), es), c);
    UndebitedTotal(Exec(Start(), es), c);
  }

  lemma UndebitedOne(i: Item, c: Currency)
    requires ItemOk(i)
    ensures Promised(i, c) >= if i.currency == c then InFlight(i) else 0
    ensures i.stage.Debiting? && i.currency == c ==> Promised(i, c) == i.amount && InFlight(i) == 0
  {
  }

  lemma UndebitedEach(s: Sys, id: nat, c: Currency)
    requires Inv(s) && id in s.items && s.items[id].stage.Debiting? && s.items[id].currency == c
    ensures Total(Undebited(s, c)) >= s.items[id].amount
  {
    var open: map<nat, int> := Undebited(s, c);
    forall j | j in open ensures open[j] >= 0 {
      UndebitedOne(s.items[j], c);
    }
    TotalNonNegative(open);
    UndebitedOne(s.items[id], c);
    assert open[id] == s.items[id].amount <= Total(open);
  }

  /** A release finds escrow able to pay, however many others are in flight and whatever
      crashed, as long as what was lost in its own currency is covered by loose value. */
  lemma EscrowCanAlwaysPay(es: seq<Event>, id: nat)
    requires id in Exec(Start(), es).items && Exec(Start(), es).items[id].stage.Debiting?
    requires var s := Exec(Start(), es);
             var c := s.items[id].currency;
             Total(Lost(s, c)) <= Get(s.loose, c)
    ensures var s := Exec(Start(), es);
            Get(s.escrow, s.items[id].currency) >= s.items[id].amount
  {
    var s := Exec(Start(), es);
    RunKeeps(es);
    EscrowCoversAll(es, s.items[id].currency);
    UndebitedEach(s, id, s.items[id].currency);
  }

  function Crashes(es: seq<Event>, id: nat): nat {
    if es == [] then 0
    else Crashes(es[..|es| - 1], id) + if es[|es| - 1] == Crash(id) then 1 else 0
  }

  lemma {:induction false} UnrecordedStep(s: Sys, e: Event, id: nat)
    requires id in Step(s, e).items
    ensures Step(s, e).items[id].unrecorded
         <= (if id in s.items then s.items[id].unrecorded else 0) + if e == Crash(id) then 1 else 0
  {
    match e
    case Clock(_) =>
    case Deposit(_, _) =>
    case OpenClaim(_, _, _, _, _) => OpenStep(s, e);
    case OpenSale(_, _, _, _, _) => OpenStep(s, e);
    case _ =>
      if e.id in s.items {
        UnrecordedTouch(s.items[e.id], e, s.now, Funded(s, s.items[e.id]));
      }
  }

  lemma UnrecordedTouch(i: Item, e: Event, now: int, funded: bool)
    ensures Touch(i, e, now, funded).unrecorded <= i.unrecorded + if e.Crash? then 1 else 0
  {
  }

  lemma {:induction false} UnrecordedBound(es: seq<Event>, id: nat)
    requires id in Exec(Start(), es).items
    ensures Exec(Start(), es).items[id].unrecorded <= Crashes(es, id)
  {
    if es != [] {
      var init := es[..|es| - 1];
      UnrecordedStep(Exec(Start(), init), es[|es| - 1], id);
      if id in Exec(Start(), init).items {
        UnrecordedBound(init, id);
      }
    }
  }

  /** An item has been paid once for its final status or for the update that is about to
      record it, and once for every handler that crashed between payment and update: at
      most once more than its handlers crashed, and a sale at most once. */
  lemma PaidOnce(es: seq<Event>, id: nat)
    requires id in Exec(Start(), es).items
    ensures var i := Exec(Start(), es).items[id];
            && |i.payments| == i.unrecorded + (if i.stage.Recording? || i.status != Pending then 1 else 0)
            && i.unrecorded <= Crashes(es, id)
            && (i.kind.Sale? ==> |i.payments| <= 1)
  {
    RunKeeps(es);
    UnrecordedBound(es, id);
    assert ItemOk(Exec(Start(), es).items[id]);
  }

  /** In a run where no handler of the claim crashed: a redeemed claim paid its redeemer
      alone, in a redemption begun by the expiry; a reclaimed one paid its sender alone,
      after it; and a pending one has paid only if its row update is the next step. */
  lemma ClaimSettlement(es: seq<Event>, id: nat)
    requires id in Exec(Start(), es).items && Exec(Start(), es).items[id].kind.Claim?
    requires Crashes(es, id) == 0
    ensures var i := Exec(Start(), es).items[id];
            match i.status
            case Claimed(w) => exists t :: i.payments == [Payment(w, t)] && t <= i.kind.expires
            case Reclaimed => exists t :: i.payments == [Payment(i.kind.sender, t)] && t > i.kind.expires
            case Pending => i.payments == [] || i.stage.Recording?
            case _ => false
  {
    RunKeeps(es);
    UnrecordedBound(es, id);
    var i := Exec(Start(), es).items[id];
    assert ItemOk(i);
    if i.status != Pending {
      OnePayment(i);
    }
  }

  lemma OnePayment(i: Item)
    requires ItemOk(i) && i.status != Pending && i.unrecorded == 0
    ensures |i.payments| == 1 && i.payments == [Payment(i.payments[0].to, i.payments[0].begun)]
  {
  }

  /** Crashes included: every payment begun after the expiry went back to the sender. */
  lemma LatePaymentsGoBack(es: seq<Event>, id: nat, p: Payment)
    requires id in Exec(Start(), es).items && Exec(Start(), es).items[id].kind.Claim?
    requires p in Exec(Start(), es).items[id].payments && p.begun > Exec(Start(), es).items[id].kind.expires
    ensures p.to == Exec(Start(), es).items[id].kind.sender
  {
    RunKeeps(es);
    assert ItemOk(Exec(Start(), es).items[id]);
  }

  /** Crashes included: a paid sale means API success and exactly the merchant credited,
      a refunded one API failure and exactly the consumer credited. */
  lemma SaleSettlement(es: seq<Event>, id: nat)
    requires id in Exec(Start(), es).items && Exec(Start(), es).items[id].kind.Sale?
    ensures var i := Exec(Start(), es).items[id];
            match i.status
            case Paid => i.api == Success && |i.payments| == 1 && i.payments[0].to == i.kind.merchant
            case Refunded => i.api == Failed && |i.payments| == 1 && i.kind.consumer == Some(i.payments[0].to)
            case Pending => true
            case _ => false
  {
    RunKeeps(es);
    if Exec(Start(), es).items[id].status != Pending {
      SaleOk(Exec(Start(), es).items[id]);
    }
  }

  lemma SaleOk(i: Item)
    requires ItemOk(i) && i.kind.Sale? && i.status != Pending
    ensures |i.payments| == 1
    ensures (i.status == Paid && i.api == Success && i.payments[0].to == i.kind.merchant)
         || (i.status == Refunded && i.api == Failed && i.kind.consumer == Some(i.payments[0].to))
  {
  }

  /** A recorded API outcome is final: no later event changes it or calls the API again. */
  lemma {:induction false} OutcomeIsFinal(es: seq<Event>, more: seq<Event>, id: nat)
    requires id in Exec(Start(), es).items && Exec(Start(), es).items[id].kind.Sale?
    requires Exec(Start(), es).items[id].api != NoOutcome
    ensures id in Exec(Exec(Start(), es), more).items
    ensures Exec(Exec(Start(), es), more).items[id].kind.Sale?
    ensures Exec(Exec(Start(), es), more).items[id].api == Exec(Start(), es).items[id].api
    ensures Exec(Exec(Start(), es), more).items[id].stage != CallingApi
    ensures Inv(Exec(Exec(Start(), es), more))
  {
    if more == [] {
      RunKeeps(es);
      assert ItemOk(Exec(Start(), es).items[id]);
    } else {
      OutcomeIsFinal(es, more[..|more| - 1], id);
      var s := Exec(Exec(Start(), es), more[..|more| - 1]);
      StepKeeps(s, more[|more| - 1]);
      OutcomeStays(s, more[|more| - 1], id);
    }
  }

  lemma TouchKeepsOutcome(i: Item, e: Event, now: int, funded: bool)
    requires ItemOk(i) && i.kind.Sale? && i.api != NoOutcome
    ensures var j := Touch(i, e, now, funded);
            j.kind == i.kind && j.api == i.api && j.stage != CallingApi
  {
  }

  lemma OutcomeStays(s: Sys, e: Event, id: nat)
    requires id in s.items && ItemOk(s.items[id]) && s.items[id].kind.Sale? && s.items[id].api != NoOutcome
    ensures id in Step(s, e).items && Step(s, e).items[id].kind.Sale?
    ensures Step(s, e).items[id].api == s.items[id].api && Step(s, e).items[id].stage != CallingApi
  {
    TouchKeepsOutcome(s.items[id], e, s.now, Funded(s, s.items[id]));
  }
}
