/** Change vouchers over whole runs (changeVoucherService.ts): vouchers interleave freely with
    each other and with every other write to the ledger; one voucher is handled by at most one
    handler at a time, which may die between any two of its steps. */
module VoucherRuns {
  import opened Wrappers
  import opened Vault
  import opened Flows
  import opened Vouchers

  datatype Payment = Payment(to: Wallet, begun: int)

  /** row is stored once all of rest has landed. */
  datatype Handler = Handler(row: Voucher, to: Wallet, begun: int, rest: seq<Tx>)

  /** One voucher: its row once there is one, its handler, the payments that landed for it,
      and how many handlers died between payment and row. */
  datatype Item = Item(row: Option<Voucher>, handler: Option<Handler>, payments: seq<Payment>, lost: nat)

  datatype Sys = Sys(ledger: Ledger, items: map<string, Item>, now: int)

  /** topUp is what the handler decides to send for a merchant whose float is short, whatever
      it read for that; Elsewhere is a transaction of any other handler. */
  datatype Event =
    | Clock(now: int)
    | Elsewhere(tx: Tx)
    | Prepare(secret: string, merchant: Wallet, amount: nat, found: Lookup, currency: Currency)
    | Redeem(secret: string, to: Wallet, topUp: seq<Tx>)
    | Send(secret: string, merchant: Wallet, to: Wallet, amount: nat, found: Lookup, currency: Currency,
           topUp: seq<Tx>)
    | Advance(secret: string)
    | Crash(secret: string)

  function Of(s: Sys, secret: string): Item {
    if secret in s.items then s.items[secret] else Item(None, None, [], 0)
  }

  function Transfer(m: Wallet, to: Wallet, amount: nat, c: Currency): seq<Tx> {
    [Debit(m, amount, c), Credit(to, amount, c)]
  }

  function Redeeming(i: Item, to: Wallet, topUp: seq<Tx>, now: int): Item {
    if i.handler.Some? then i
    else
      match RowRefusal(i.row, now)
      case Some(HasExpired) => i.(row := Some(i.row.value.(status := Expired)))
      case Some(_) => i
      case None =>
        var v := i.row.value;
        i.(handler := Some(Handler(v.(status := Claimed, recipient := Some(to)), to, now,
                                   topUp + Transfer(v.merchant.value, to, v.amount, v.currency))))
  }

  /** A new voucher has a new secret: none is issued over a row or beside a handler. */
  function Issuing(i: Item, e: Event, now: int): Item
    requires e.Prepare? || e.Send?
  {
    if i.row.Some? || i.handler.Some? || IssueRefusal(e.amount, e.found, e.currency).Some? then i
    else if e.Prepare? then i.(row := Some(Voucher(Some(e.merchant), e.amount, e.currency, Pending, None, now + TTL)))
    else
      var row := Voucher(Some(e.merchant), e.amount, e.currency, Claimed, Some(e.to), now);
      i.(handler := Some(Handler(row, e.to, now, e.topUp + Transfer(e.merchant, e.to, e.amount, e.currency))))
  }

  /** The next transaction of a handler, or, when there is none, the row: one sent to a tag
      is stored with the time of storing. */
  function Advanced(i: Item, landed: bool, now: int): Item {
    if i.handler.None? then i
    else
      var h := i.handler.value;
      if h.rest == [] then i.(handler := None, row := Some(if i.row.None? then h.row.(expires := now) else h.row))
      else if !landed then i.(handler := None)
      else i.(handler := Some(h.(rest := h.rest[1..])),
              payments := i.payments + if |h.rest| == 1 then [Payment(h.to, h.begun)] else [])
  }

  function Dead(i: Item): Item {
    i.(handler := None, lost := i.lost + if i.handler.Some? && i.handler.value.rest == [] then 1 else 0)
  }

  function After(l: Ledger, i: Item): Option<Ledger> {
    if i.handler.None? || i.handler.value.rest == [] then None else Execute(l, i.handler.value.rest[0])
  }

  function Touch(i: Item, e: Event, landed: bool, now: int): Item {
    match e
    case Redeem(_, to, topUp) => Redeeming(i, to, topUp, now)
    case Prepare(_, _, _, _, _) => Issuing(i, e, now)
    case Send(_, _, _, _, _, _, _) => Issuing(i, e, now)
    case Advance(_) => Advanced(i, landed, now)
    case Crash(_) => Dead(i)
    case _ => i
  }

  function Step(s: Sys, e: Event): Sys {
    match e
    case Clock(now) => if now < s.now then s else s.(now := now)
    case Elsewhere(tx) => if Execute(s.ledger, tx).Some? then s.(ledger := Execute(s.ledger, tx).value) else s
    case _ =>
      var i := Of(s, e.secret);
      var l := After(s.ledger, i);
      Sys(if e.Advance? && l.Some? then l.value else s.ledger,
          s.items[e.secret := Touch(i, e, l.Some?, s.now)], s.now)
  }

  function Exec(s: Sys, es: seq<Event>): Sys {
    if es == [] then s else Step(Exec(s, es[..|es| - 1]), es[|es| - 1])
  }

  function Start(l: Ledger): Sys { Sys(l, map[], 0) }

  // ---- One voucher ----

  predicate Recording(i: Item) {
    i.handler.Some? && i.handler.value.rest == []
  }

  predicate IsClaimed(i: Item) {
    i.row.Some? && i.row.value.status == Claimed
  }

  ghost predicate BegunBy(payments: seq<Payment>, t: int) {
    forall p :: p in payments ==> p.begun <= t
  }

  ghost predicate HandlerOk(i: Item, h: Handler, now: int) {
    && h.row.status == Claimed && h.row.recipient == Some(h.to)
    && h.begun <= now && h.begun <= h.row.expires && BegunBy(i.payments, h.row.expires)
    && (i.row.Some? ==> i.row.value.status == Pending && h.row.expires == i.row.value.expires)
    && (h.rest == [] ==> i.payments != [] && i.payments[|i.payments| - 1] == Payment(h.to, h.begun))
  }

  ghost predicate Ok(i: Item, now: int) {
    && |i.payments| == i.lost + (if Recording(i) || IsClaimed(i) then 1 else 0)
    && BegunBy(i.payments, now)
    && (i.handler.Some? ==> HandlerOk(i, i.handler.value, now))
    && (i.row.Some? ==> BegunBy(i.payments, i.row.value.expires))
    && (IsClaimed(i) ==> i.payments != [] && i.row.value.recipient == Some(i.payments[|i.payments| - 1].to))
  }

  ghost predicate Inv(s: Sys) {
    forall secret :: Ok(Of(s, secret), s.now)
  }

  lemma LaterOk(i: Item, now: int, later: int)
    requires Ok(i, now) && now <= later
    ensures Ok(i, later)
  {
  }

  lemma RedeemingOk(i: Item, to: Wallet, topUp: seq<Tx>, now: int)
    requires Ok(i, now)
    ensures Ok(Redeeming(i, to, topUp, now), now)
  {
  }

  lemma IssuingOk(i: Item, e: Event, now: int)
    requires Ok(i, now) && (e.Prepare? || e.Send?)
    ensures Ok(Issuing(i, e, now), now)
  {
  }

  lemma AdvancedOk(i: Item, landed: bool, now: int)
    requires Ok(i, now)
    ensures Ok(Advanced(i, landed, now), now)
  {
    if i.handler.Some? && |i.handler.value.rest| == 1 && landed {
      var paid := Payment(i.handler.value.to, i.handler.value.begun);
      assert forall p :: p in i.payments + [paid] ==> p in i.payments || p == paid;
    }
  }

  lemma {:induction false} TouchOk(i: Item, e: Event, landed: bool, now: int)
    requires Ok(i, now)
    ensures Ok(Touch(i, e, landed, now), now)
  {
    match e
    case Redeem(_, to, topUp) => RedeemingOk(i, to, topUp, now);
    case Prepare(_, _, _, _, _) => IssuingOk(i, e, now);
    case Send(_, _, _, _, _, _, _) => IssuingOk(i, e, now);
    case Advance(_) => AdvancedOk(i, landed, now);
    case _ =>
  }

  lemma StepOk(s: Sys, e: Event, secret: string)
    requires Ok(Of(s, secret), s.now)
    ensures Ok(Of(Step(s, e), secret), Step(s, e).now)
  {
    if e.Clock? {
      LaterOk(Of(s, secret), s.now, Step(s, e).now);
    } else if !e.Elsewhere? && e.secret == secret {
      TouchOk(Of(s, secret), e, After(s.ledger, Of(s, secret)).Some?, s.now);
    }
  }

  lemma {:induction false} RunKeeps(s: Sys, es: seq<Event>)
    requires Inv(s)
    ensures Inv(Exec(s, es))
  {
    if es != [] {
      var before, e := Exec(s, es[..|es| - 1]), es[|es| - 1];
      RunKeeps(s, es[..|es| - 1]);
      forall secret ensures Ok(Of(Step(before, e), secret), Step(before, e).now) {
        StepOk(before, e, secret);
      }
    }
  }

  // ---- Main results ----

  /** The crashes that hit the handler of a voucher between its payment and its row. */
  function Losses(l: Ledger, es: seq<Event>, secret: string): nat {
    if es == [] then 0
    else
      var i := Of(Exec(Start(l), es[..|es| - 1]), secret);
      Losses(l, es[..|es| - 1], secret)
      + if es[|es| - 1] == Crash(secret) && i.handler.Some? && i.handler.value.rest == [] then 1 else 0
  }

  lemma LostStep(s: Sys, e: Event, secret: string)
    ensures Of(Step(s, e), secret).lost
         == Of(s, secret).lost
            + if e == Crash(secret) && Of(s, secret).handler.Some? && Of(s, secret).handler.value.rest == [] then 1
              else 0
  {
  }

  lemma {:induction false} LossesCounted(l: Ledger, es: seq<Event>, secret: string)
    ensures Of(Exec(Start(l), es), secret).lost == Losses(l, es, secret)
  {
    if es != [] {
      LossesCounted(l, es[..|es| - 1], secret);
      LostStep(Exec(Start(l), es[..|es| - 1]), es[|es| - 1], secret);
    }
  }

  /** A voucher has been paid once for being claimed, or for the row that is about to say so,
      and once for every crash of a handler between payment and row, whatever else happens
      on the ledger. */
  lemma PaidOncePerLoss(l: Ledger, es: seq<Event>, secret: string)
    ensures var i := Of(Exec(Start(l), es), secret);
            |i.payments| == Losses(l, es, secret) + (if Recording(i) || IsClaimed(i) then 1 else 0)
  {
    RunKeeps(Start(l), es);
    assert Ok(Of(Exec(Start(l), es), secret), Exec(Start(l), es).now);
    LossesCounted(l, es, secret);
  }

  /** Crashes included: a claimed voucher names the wallet its last payment went to, and no
      payment of a voucher was begun after its expiry. */
  lemma PaidToItsRecipient(l: Ledger, es: seq<Event>, secret: string)
    requires Of(Exec(Start(l), es), secret).row.Some?
    ensures var i := Of(Exec(Start(l), es), secret);
            && (forall p :: p in i.payments ==> p.begun <= i.row.value.expires)
            && (IsClaimed(i) ==>
                  i.payments != [] && i.row.value.recipient == Some(i.payments[|i.payments| - 1].to))
  {
    RunKeeps(Start(l), es);
    assert Ok(Of(Exec(Start(l), es), secret), Exec(Start(l), es).now);
  }

  lemma ClosedStep(s: Sys, e: Event, secret: string)
    requires Ok(Of(s, secret), s.now)
    requires Of(s, secret).row.Some? && Of(s, secret).row.value.status != Pending
    ensures Of(Step(s, e), secret) == Of(s, secret)
  {
  }

  /** A voucher that is claimed or expired is never changed and never paid again. */
  lemma {:induction false} ClosedIsFinal(l: Ledger, es: seq<Event>, more: seq<Event>, secret: string)
    requires Of(Exec(Start(l), es), secret).row.Some?
    requires Of(Exec(Start(l), es), secret).row.value.status != Pending
    ensures Of(Exec(Exec(Start(l), es), more), secret) == Of(Exec(Start(l), es), secret)
  {
    if more != [] {
      var n := |more| - 1;
      var s := Exec(Exec(Start(l), es), more[..n]);
      ClosedIsFinal(l, es, more[..n], secret);
      RunKeeps(Start(l), es);
      RunKeeps(Exec(Start(l), es), more[..n]);
      assert Ok(Of(s, secret), s.now);
      ClosedStep(s, more[n], secret);
    }
  }

  // ---- A redemption alone is a run of the machine ----

  /** n events of the handler of a voucher whose process lives to do fuel more of them. */
  function Lives(s: Sys, secret: string, fuel: nat, n: nat): Sys
    decreases n
  {
    if n == 0 then s
    else if fuel == 0 then Lives(Step(s, Crash(secret)), secret, 0, n - 1)
    else Lives(Step(s, Advance(secret)), secret, fuel - 1, n - 1)
  }

  lemma {:induction false} NothingLeft(s: Sys, secret: string, fuel: nat, n: nat)
    requires secret in s.items && s.items[secret].handler.None?
    ensures Lives(s, secret, fuel, n) == s
    decreases n
  {
    if n > 0 {
      assert s.items[secret := s.items[secret]] == s.items;
      NothingLeft(s, secret, if fuel == 0 then 0 else fuel - 1, n - 1);
    }
  }

  /** What the rest of a handler leaves behind: t after s. */
  ghost predicate Leaves(s: Sys, t: Sys, secret: string, fuel: nat)
    requires secret in s.items && s.items[secret].handler.Some?
  {
    var i, h := s.items[secret], s.items[secret].handler.value;
    var o := Run(s.ledger, h.rest, fuel);
    && t.ledger == o.ledger && t.now == s.now
    && secret in t.items && t.items - {secret} == s.items - {secret}
    && var j := t.items[secret];
    && j.handler == None
    && j.row == (if !o.done || o.fuel == 0 then i.row
                 else Some(if i.row.None? then h.row.(expires := s.now) else h.row))
    && j.payments == i.payments + (if o.done && h.rest != [] then [Payment(h.to, h.begun)] else [])
    && j.lost == i.lost + (if o.done && o.fuel == 0 then 1 else 0)
  }

  /** The first step, when the handler ends with it. */
  lemma RestEnds(s: Sys, secret: string, fuel: nat)
    requires secret in s.items && s.items[secret].handler.Some?
    requires var h := s.items[secret].handler.value;
             fuel == 0 || h.rest == [] || Execute(s.ledger, h.rest[0]).None?
    ensures Leaves(s, Step(s, if fuel == 0 then Crash(secret) else Advance(secret)), secret, fuel)
  {
    var t := Step(s, if fuel == 0 then Crash(secret) else Advance(secret));
    assert t.items - {secret} == s.items - {secret};
  }

  /** For every point at which it may die. */
  lemma {:induction false} RestAlone(s: Sys, secret: string, fuel: nat)
    requires secret in s.items && s.items[secret].handler.Some?
    ensures Leaves(s, Lives(s, secret, fuel, |s.items[secret].handler.value.rest| + 1), secret, fuel)
    decreases |s.items[secret].handler.value.rest|
  {
    var h := s.items[secret].handler.value;
    var next := Step(s, if fuel == 0 then Crash(secret) else Advance(secret));
    if fuel > 0 && h.rest != [] && Execute(s.ledger, h.rest[0]).Some? {
      assert next.items - {secret} == s.items - {secret};
      RestAlone(next, secret, fuel - 1);
    } else {
      RestEnds(s, secret, fuel);
      NothingLeft(next, secret, if fuel == 0 then 0 else fuel - 1, |h.rest|);
    }
  }

  /** redeemChangeVoucher past its checks: ledger and row end as the machine has them. */
  lemma RedeemAlone(s: Sys, secret: string, to: Wallet, tables: seq<Wallet>, fuel: nat)
    requires secret in s.items && s.items[secret].handler.None? && RowRefusal(s.items[secret].row, s.now).None?
    ensures var i, v := s.items[secret], s.items[secret].row.value;
            var topUp := ShortfallPlan(s.ledger, tables, v.merchant.value, v.amount, v.currency);
            var plan := VoucherPlan(s.ledger, tables, v.merchant.value, to, v.amount, v.currency);
            var t := Lives(Step(s, Redeem(secret, to, topUp)), secret, fuel, |plan| + 1);
            var o := Run(s.ledger, plan, fuel);
            && t.ledger == o.ledger && t.items - {secret} == s.items - {secret} && secret in t.items
            && var j := t.items[secret];
            && j.row == Some(if o.done && o.fuel > 0 then v.(status := Claimed, recipient := Some(to)) else v)
            && j.payments == i.payments + (if o.done then [Payment(to, s.now)] else [])
  {
    var v := s.items[secret].row.value;
    var topUp := ShortfallPlan(s.ledger, tables, v.merchant.value, v.amount, v.currency);
    var begun := Step(s, Redeem(secret, to, topUp));
    assert begun.items - {secret} == s.items - {secret};
    assert begun.items[secret].handler.value.rest
        == VoucherPlan(s.ledger, tables, v.merchant.value, to, v.amount, v.currency);
    RestAlone(begun, secret, fuel);
  }

  /** What happens beside the handlers: time goes on and does not go back, and the transactions
      of others change the ledger alone. */
  lemma BesideHandlers(s: Sys, now: int, tx: Tx)
    ensures Step(s, Clock(now)) == if s.now <= now then Sys(s.ledger, s.items, now) else s
    ensures Step(s, Elsewhere(tx)) == match Execute(s.ledger, tx)
                                      case None => s
                                      case Some(l) => Sys(l, s.items, s.now)
  {
  }

  /** What preparing a voucher and redeeming an expired one leave. */
  lemma RowsWritten(s: Sys, secret: string, m: Wallet, a: nat, found: Lookup, c: Currency, to: Wallet, topUp: seq<Tx>)
    ensures Of(s, secret) == Item(None, None, [], 0) && IssueRefusal(a, found, c).None? ==>
              Of(Step(s, Prepare(secret, m, a, found, c)), secret)
              == Item(Some(Voucher(Some(m), a, c, Pending, None, s.now + 15 * 60 * 1000)), None, [], 0)
    ensures var i := Of(s, secret);
            i.row.Some? && i.handler.None? && i.row.value.status == Pending && i.row.value.expires < s.now ==>
              Of(Step(s, Redeem(secret, to, topUp)), secret) == i.(row := Some(i.row.value.(status := Expired)))
  {
  }

  /** A voucher sent to a tag, alone: paid first and stored as claimed with the time of storing,
      or not stored. */
  lemma SendAlone(s: Sys, secret: string, m: Wallet, to: Wallet, a: nat, found: Lookup, c: Currency,
                  tables: seq<Wallet>, fuel: nat)
    requires secret !in s.items && IssueRefusal(a, found, c).None?
    ensures var topUp := ShortfallPlan(s.ledger, tables, m, a, c);
            var plan := VoucherPlan(s.ledger, tables, m, to, a, c);
            var t := Lives(Step(s, Send(secret, m, to, a, found, c, topUp)), secret, fuel, |plan| + 1);
            var o := Run(s.ledger, plan, fuel);
            && t.ledger == o.ledger && t.items - {secret} == s.items - {secret} && secret in t.items
            && t.items[secret].row == (if o.done && o.fuel > 0
                                       then Some(Voucher(Some(m), a, c, Claimed, Some(to), s.now)) else None)
            && t.items[secret].payments == if o.done then [Payment(to, s.now)] else []
  {
    var topUp := ShortfallPlan(s.ledger, tables, m, a, c);
    var begun := Step(s, Send(secret, m, to, a, found, c, topUp));
    assert begun.items - {secret} == s.items - {secret};
    assert begun.items[secret].handler.value.rest == VoucherPlan(s.ledger, tables, m, to, a, c);
    RestAlone(begun, secret, fuel);
  }
}
