/** withdrawalService.ts and the challenge store under arbitrary interleaving. Each event
    is one stretch of code that runs without an await; between two of them any other
    handler may run, the clock may move, or the server may restart and lose its memory. */
module Withdrawals {
  import opened Wrappers
  import opened Sums
  import opened Vault
  import opened Fees
  import opened OneTimeStore
  import Flows
  import Handlers

  /** The fields hashed into the passkey challenge. */
  datatype Intent = Intent(from: Wallet, to: Wallet, gross: nat, fee: nat, net: nat, bps: int, name: string)

  /** Challenges are hashes of intents, taken to be injective, or fresh random values. */
  datatype Challenge = ForIntent(intent: Intent) | Random(n: nat)

  datatype Row = Row(owner: string, intent: Intent)

  datatype Stage = Fetched | Verified | Paying

  datatype Handler = Handler(id: nat, row: Row, stage: Stage)

  datatype Sys = Sys(
    challenges: map<Challenge, Entry<()>>, pending: map<nat, Entry<Row>>, handlers: map<nat, Handler>,
    now: int, prepares: map<Intent, nat>, payouts: map<Intent, nat>)

  const TTL := 5 * 60 * 1000

  datatype Event =
    | Clock(now: int)
    | Prepare(id: nat, row: Row)
    | SweepPending
    | Submit(pid: nat, id: nat, owner: string, from: Wallet)
    | Verify(pid: nat, presented: Challenge, typeOk: bool, signatureOk: bool)
    | Recheck(pid: nat, enough: bool)
    | Pay(pid: nat, landed: bool)
    | Abort(pid: nat)
    | IssueLogin(n: nat)
    | ConsumeElsewhere(presented: Challenge, typeOk: bool)
    | Restart

  function Accepted(s: Sys, c: Challenge): bool {
    Answer(s.challenges, Timed(Consume(c, true), s.now)).Some?
  }

  function Consumed(s: Sys, c: Challenge): Sys {
    s.(challenges := Next(s.challenges, Timed(Consume(c, true), s.now)))
  }

  function Remove(s: Sys, pid: nat): Sys {
    s.(handlers := s.handlers - {pid})
  }

  /** The presented challenge must be the row's, and is spent before the signature is
      checked. */
  function VerifyStep(s: Sys, pid: nat, presented: Challenge, typeOk: bool, signatureOk: bool): Sys {
    if pid !in s.handlers || s.handlers[pid].stage != Fetched then s
    else
      var h := s.handlers[pid];
      if presented != ForIntent(h.row.intent) || !typeOk then Remove(s, pid)
      else if !Accepted(s, presented) || !signatureOk then Remove(Consumed(s, presented), pid)
      else Consumed(s, presented).(handlers := s.handlers[pid := h.(stage := Verified)])
  }

  function Step(s: Sys, e: Event): Sys {
    match e
    case Clock(now) => s.(now := now)
    case Prepare(id, row) =>
      s.(challenges := Next(s.challenges, Timed(Issue(ForIntent(row.intent), (), TTL), s.now)),
         pending := Next(s.pending, Timed(Put(id, row, TTL), s.now)),
         prepares := s.prepares[row.intent := Get(s.prepares, row.intent) + 1])
    case SweepPending => s.(pending := Next(s.pending, Timed(Clean, s.now)))
    case Submit(pid, id, owner, from) =>
      var t := s.(pending := Swept(s.pending, s.now));
      if pid in s.handlers || id !in t.pending then t
      else
        var row := t.pending[id].value;
        if row.owner != owner || row.intent.from != from then t
        else t.(handlers := t.handlers[pid := Handler(id, row, Fetched)])
    case Verify(pid, c, typeOk, signatureOk) => VerifyStep(s, pid, c, typeOk, signatureOk)
    case Recheck(pid, enough) =>
      if pid !in s.handlers || s.handlers[pid].stage != Verified then s
      else if !enough then Remove(s, pid)
      else s.(pending := s.pending - {s.handlers[pid].id},
              handlers := s.handlers[pid := s.handlers[pid].(stage := Paying)])
    case Pay(pid, landed) =>
      if pid !in s.handlers || s.handlers[pid].stage != Paying then s
      else
        var i := s.handlers[pid].row.intent;
        var t := Remove(s, pid);
        if landed then t.(payouts := t.payouts[i := Get(t.payouts, i) + 1]) else t
    case Abort(pid) => Remove(s, pid)
    case IssueLogin(n) => s.(challenges := Next(s.challenges, Timed(Issue(Random(n), (), TTL), s.now)))
    case ConsumeElsewhere(c, typeOk) => if typeOk then Consumed(s, c) else s
    case Restart => s.(challenges := map[], pending := map[], handlers := map[])
  }

  function Exec(es: seq<Event>): Sys {
    if es == [] then Sys(map[], map[], map[], 0, map[], map[])
    else Step(Exec(es[..|es| - 1]), es[|es| - 1])
  }

  /** A handler past verification holds one spent challenge of its intent. */
  function Holds(h: Handler, i: Intent): int {
    if h.row.intent == i && h.stage != Fetched then 1 else 0
  }

  ghost function Holding(handlers: map<nat, Handler>, i: Intent): map<nat, int> {
    map pid | pid in handlers :: Holds(handlers[pid], i)
  }

  ghost predicate Accounted(s: Sys, i: Intent) {
    Get(s.payouts, i) + Total(Holding(s.handlers, i)) + (if ForIntent(i) in s.challenges then 1 else 0)
      <= Get(s.prepares, i)
  }

  lemma HoldingUpdate(handlers: map<nat, Handler>, pid: nat, h: Handler, i: Intent)
    ensures Total(Holding(handlers[pid := h], i))
         == Total(Holding(handlers, i)) + Holds(h, i) - (if pid in handlers then Holds(handlers[pid], i) else 0)
  {
    assert Holding(handlers[pid := h], i) == Holding(handlers, i)[pid := Holds(h, i)];
    TotalUpdate(Holding(handlers, i), pid, Holds(h, i));
  }

  lemma HoldingRemove(handlers: map<nat, Handler>, pid: nat, i: Intent)
    ensures Total(Holding(handlers - {pid}, i))
         == Total(Holding(handlers, i)) - (if pid in handlers then Holds(handlers[pid], i) else 0)
  {
    if pid in handlers {
      assert Holding(handlers - {pid}, i) == Holding(handlers, i) - {pid};
      TotalRemove(Holding(handlers, i), pid);
    } else {
      assert handlers - {pid} == handlers;
    }
  }

  lemma ConsumedIs(s: Sys, c: Challenge)
    ensures Consumed(s, c) == s.(challenges := s.challenges - {c})
    ensures Accepted(s, c) ==> c in s.challenges
  {
  }

  lemma VerifyAccounted(s: Sys, e: Event, i: Intent)
    requires e.Verify? && Accounted(s, i)
    ensures Accounted(Step(s, e), i)
  {
    if e.pid in s.handlers && s.handlers[e.pid].stage == Fetched {
      ConsumedIs(s, e.presented);
      HoldingRemove(s.handlers, e.pid, i);
      HoldingUpdate(s.handlers, e.pid, s.handlers[e.pid].(stage := Verified), i);
    }
  }

  lemma PrepareAccounted(s: Sys, e: Event, i: Intent)
    requires e.Prepare? && Accounted(s, i)
    ensures Accounted(Step(s, e), i)
  {
  }

  lemma RecheckAccounted(s: Sys, e: Event, i: Intent)
    requires e.Recheck? && Accounted(s, i)
    ensures Accounted(Step(s, e), i)
  {
    if e.pid in s.handlers && s.handlers[e.pid].stage == Verified {
      HoldingRemove(s.handlers, e.pid, i);
      HoldingUpdate(s.handlers, e.pid, s.handlers[e.pid].(stage := Paying), i);
    }
  }

  lemma SubmitAccounted(s: Sys, e: Event, i: Intent)
    requires e.Submit? && Accounted(s, i)
    ensures Accounted(Step(s, e), i)
  {
    if e.pid !in s.handlers && e.id in Swept(s.pending, s.now) {
      HoldingUpdate(s.handlers, e.pid, Handler(e.id, Swept(s.pending, s.now)[e.id].value, Fetched), i);
    }
  }

  lemma StepAccounted(s: Sys, e: Event, i: Intent)
    requires Accounted(s, i)
    ensures Accounted(Step(s, e), i)
  {
    match e
    case Prepare(_, _) => PrepareAccounted(s, e, i);
    case Submit(_, _, _, _) => SubmitAccounted(s, e, i);
    case Verify(_, _, _, _) => VerifyAccounted(s, e, i);
    case Recheck(_, _) => RecheckAccounted(s, e, i);
    case Pay(pid, _) => HoldingRemove(s.handlers, pid, i);
    case Abort(pid) => HoldingRemove(s.handlers, pid, i);
    case Restart =>
      assert Holding(map[], i) == map[];
      TotalNonNegative(Holding(s.handlers, i));
    case _ =>
  }

  lemma {:induction false} RunAccounted(es: seq<Event>, i: Intent)
    ensures Accounted(Exec(es), i)
  {
    if es == [] {
      assert Holding(map[], i) == map[];
    } else {
      RunAccounted(es[..|es| - 1], i);
      StepAccounted(Exec(es[..|es| - 1]), es[|es| - 1], i);
    }
  }

  /** However the handlers interleave, the payouts of an intent never outnumber its
      prepares. */
  lemma AtMostOncePerPrepare(es: seq<Event>, i: Intent)
    ensures Get(Exec(es).payouts, i) <= Get(Exec(es).prepares, i)
  {
    RunAccounted(es, i);
    TotalNonNegative(Holding(Exec(es).handlers, i));
  }

  function PreparesOf(es: seq<Event>, i: Intent): nat {
    if es == [] then 0
    else PreparesOf(es[..|es| - 1], i)
         + var e := es[|es| - 1]; if e.Prepare? && e.row.intent == i then 1 else 0
  }

  lemma StepPrepares(s: Sys, e: Event, i: Intent)
    ensures Get(Step(s, e).prepares, i) == Get(s.prepares, i) + if e.Prepare? && e.row.intent == i then 1 else 0
  {
  }

  lemma {:induction false} CountedPrepares(es: seq<Event>, i: Intent)
    ensures Get(Exec(es).prepares, i) == PreparesOf(es, i)
  {
    if es != [] {
      CountedPrepares(es[..|es| - 1], i);
      StepPrepares(Exec(es[..|es| - 1]), es[|es| - 1], i);
    }
  }

  /** The prepares counted are the ones that happened, so an intent prepared once is paid
      at most once and one never prepared is never paid. */
  lemma PreparesCounted(es: seq<Event>, i: Intent)
    ensures Get(Exec(es).payouts, i) <= PreparesOf(es, i)
  {
    CountedPrepares(es, i);
    AtMostOncePerPrepare(es, i);
  }

  /** The payments that landed: by handlers that were past the re-check, for the intent. */
  function PaysOf(es: seq<Event>, i: Intent): nat {
    if es == [] then 0
    else
      var s, e := Exec(es[..|es| - 1]), es[|es| - 1];
      PaysOf(es[..|es| - 1], i)
      + if e.Pay? && e.landed && e.pid in s.handlers && s.handlers[e.pid].stage == Paying
           && s.handlers[e.pid].row.intent == i then 1 else 0
  }

  lemma {:induction false} PayoutsAreCounted(es: seq<Event>, i: Intent)
    ensures Get(Exec(es).payouts, i) == PaysOf(es, i)
  {
    if es != [] {
      PayoutsAreCounted(es[..|es| - 1], i);
      PayoutStep(Exec(es[..|es| - 1]), es[|es| - 1], i);
    }
  }

  lemma PayoutStep(s: Sys, e: Event, i: Intent)
    ensures Get(Step(s, e).payouts, i) == Get(s.payouts, i)
              + if e.Pay? && e.landed && e.pid in s.handlers && s.handlers[e.pid].stage == Paying
                   && s.handlers[e.pid].row.intent == i then 1 else 0
  {
  }

  lemma PrepareStands(s: Sys, id: nat, row: Row)
    ensures var t := Step(s, Prepare(id, row));
            && t.pending == s.pending[id := Entry(row, s.now + 300000)]
            && ForIntent(row.intent) in t.challenges && t.challenges[ForIntent(row.intent)].expires == s.now + 300000
            && t.handlers == s.handlers && t.now == s.now && t.payouts == s.payouts
  {
  }

  lemma SubmitStands(s: Sys, id: nat, row: Row, pid: nat)
    requires pid !in s.handlers && id in s.pending && s.pending[id].value == row && s.now <= s.pending[id].expires
    ensures var t := Step(s, Submit(pid, id, row.owner, row.intent.from));
            && t.handlers == s.handlers[pid := Handler(id, row, Fetched)]
            && t.challenges == s.challenges && t.now == s.now && t.payouts == s.payouts
  {
    assert id in Swept(s.pending, s.now);
  }

  /** Signed and paid, a submitted handler pays its intent once. */
  lemma SignedIsPaid(s: Sys, pid: nat)
    requires pid in s.handlers && s.handlers[pid].stage == Fetched
    requires var c := ForIntent(s.handlers[pid].row.intent); c in s.challenges && s.now <= s.challenges[c].expires
    ensures var i, id := s.handlers[pid].row.intent, s.handlers[pid].id;
            var verified := Step(s, Verify(pid, ForIntent(i), true, true));
            var paid := Step(Step(verified, Recheck(pid, true)), Pay(pid, true));
            && verified.challenges == s.challenges - {ForIntent(i)} && paid.challenges == verified.challenges
            && paid.payouts == s.payouts[i := Get(s.payouts, i) + 1]
            && id !in paid.pending && pid !in paid.handlers
  {
    var h := s.handlers[pid];
    var verified := Step(s, Verify(pid, ForIntent(h.row.intent), true, true));
    assert verified.handlers[pid] == h.(stage := Verified);
    assert Step(verified, Recheck(pid, true)).handlers[pid] == h.(stage := Paying);
  }

  /** Prepared, submitted by its owner, signed and paid without disturbance, an intent is paid
      once more than before, and its row and its challenge are gone. */
  lemma PreparedIsPaid(s: Sys, id: nat, row: Row, pid: nat)
    requires pid !in s.handlers
    ensures var prepared := Step(s, Prepare(id, row));
            var submitted := Step(prepared, Submit(pid, id, row.owner, row.intent.from));
            var verified := Step(submitted, Verify(pid, ForIntent(row.intent), true, true));
            var paid := Step(Step(verified, Recheck(pid, true)), Pay(pid, true));
            && prepared.pending == s.pending[id := Entry(row, s.now + 300000)]
            && ForIntent(row.intent) in prepared.challenges && ForIntent(row.intent) !in paid.challenges
            && paid.payouts == s.payouts[row.intent := Get(s.payouts, row.intent) + 1]
            && id !in paid.pending && pid !in paid.handlers
  {
    var prepared := Step(s, Prepare(id, row));
    PrepareStands(s, id, row);
    SubmitStands(prepared, id, row, pid);
    SignedIsPaid(Step(prepared, Submit(pid, id, row.owner, row.intent.from)), pid);
  }

  // ---- The handlers as code ----

  datatype Refusal =
    | NameRequired | InvalidAddress | ToSelf | PlatformAddress | UseInternalTransfer | NotPositive
    | KycRefused | InsufficientBalance | FeeTooLarge | InsufficientReserves

  /** What prepareWithdrawal reads between its checks. */
  datatype Facts = Facts(
    addressOk: bool, trusted: bool, registered: bool, kycOk: bool, balance: nat, bps: int, inventory: nat)

  /** The first failing check, in the order of the code. */
  function Refused(name: string, from: Wallet, to: Wallet, gross: nat, f: Facts): Option<Refusal> {
    if |name| < 2 then Some(NameRequired)
    else if !f.addressOk then Some(InvalidAddress)
    else if to == from then Some(ToSelf)
    else if f.trusted then Some(PlatformAddress)
    else if f.registered then Some(UseInternalTransfer)
    else if gross == 0 then Some(NotPositive)
    else if !f.kycOk then Some(KycRefused)
    else if f.balance < gross then Some(InsufficientBalance)
    else if WithdrawalFee(gross, f.bps).None? then Some(FeeTooLarge)
    else if f.inventory < gross - WithdrawalFee(gross, f.bps).value then Some(InsufficientReserves)
    else None
  }

  /** Each refusal and what it takes, the first failing check deciding. */
  lemma RefusalsAre(name: string, from: Wallet, to: Wallet, gross: nat, f: Facts)
    ensures var r := Refused(name, from, to, gross, f);
            var named := |name| >= 2 && f.addressOk;
            var outside := named && to != from && !f.trusted && !f.registered;
            var allowed := outside && gross > 0 && f.kycOk && gross <= f.balance;
            var fee := WithdrawalFee(gross, f.bps);
            && (r == Some(NameRequired) <==> |name| < 2)
            && (r == Some(InvalidAddress) <==> |name| >= 2 && !f.addressOk)
            && (r == Some(ToSelf) <==> named && to == from)
            && (r == Some(PlatformAddress) <==> named && to != from && f.trusted)
            && (r == Some(UseInternalTransfer) <==> named && to != from && !f.trusted && f.registered)
            && (r == Some(NotPositive) <==> outside && gross == 0)
            && (r == Some(KycRefused) <==> outside && gross > 0 && !f.kycOk)
            && (r == Some(InsufficientBalance) <==> outside && gross > 0 && f.kycOk && f.balance < gross)
            && (r == Some(FeeTooLarge) <==> allowed && fee == None)
            && (r == Some(InsufficientReserves) <==> allowed && fee.Some? && f.inventory < gross - fee.value)
            && (r == None <==> allowed && fee.Some? && gross - fee.value <= f.inventory)
  {
  }

  predicate FeeAndNet(i: Intent) {
    i.fee + i.net == i.gross
  }

  datatype Submitted =
    | HasExpired | NotYours | UnknownCredential | WrongCredential | WrongChallenge | NotVerified | CounterRegression
    | TooLittle | PaymentFailed | Executed(intent: Intent)

  /** What a submission brings and what is known of its passkey: the wallet of the credential,
      if there is one, and the two sign counts. The type goes with the origin, the signature
      with the relying party's hash and the presence flag. */
  datatype Assertion = Assertion(credential: Option<Wallet>, presented: Challenge, typeOk: bool, signatureOk: bool,
                                 signCount: nat, lastCount: nat)

  /** What a payout sends: the net amount, and a positive fee to the treasury. */
  function Payout(p: Flows.Platform, i: Intent): seq<Tx> {
    [Withdraw(i.from, i.to, i.net, Usdc)]
    + if i.fee > 0 then [Debit(i.from, i.fee, Usdc), Credit(p.treasury, i.fee, Usdc)] else []
  }

  /** What a payout that landed has done to the claims and to the destination. */
  lemma PaidOut(l: Ledger, p: Flows.Platform, i: Intent, fuel: nat)
    requires FeeAndNet(i) && i.gross <= Balance(l, i.from, Usdc) && i.net <= Get(l.inventory, Usdc)
    requires Run(l, Payout(p, i), fuel).done
    ensures var k := Run(l, Payout(p, i), fuel).ledger;
            && (forall w :: Balance(k, w, Usdc) == Balance(l, w, Usdc)
                  - (if w == i.from then i.gross else 0) + (if w == p.treasury then i.fee else 0))
            && Get(k.external, (Usdc, i.to)) == Get(l.external, (Usdc, i.to)) + i.net
  {
    assert Payout(p, i) == Flows.WithdrawalPlan(l, p, i.from, i.to, i.gross, i.fee);
    Flows.WithdrawalCompletes(l, p, i.from, i.to, i.gross, i.fee, fuel);
  }

  class WithdrawalService {
    const challenges: ExpiringMap<Challenge, ()>
    const pending: ExpiringMap<nat, Row>
    const backend: Handlers.Backend

    constructor (c: ExpiringMap<Challenge, ()>, p: ExpiringMap<nat, Row>, b: Handlers.Backend)
      ensures challenges == c && pending == p && backend == b
    {
      challenges, pending, backend := c, p, b;
    }

    /** Every prepared row splits its gross amount into fee and net. */
    ghost predicate Valid()
      reads pending
    {
      forall id :: id in pending.entries ==> FeeAndNet(pending.entries[id].value.intent)
    }

    /** A refused prepare leaves no challenge and no row behind (the sweep aside); an
        accepted one commits exactly one Prepare event whose fee and net make the gross. */
    method PrepareWithdrawal(id: nat, owner: string, from: Wallet, to: Wallet, gross: nat, name: string,
                             facts: Facts, now: int)
      returns (refusal: Option<Refusal>, row: Option<Row>)
      requires id !in pending.entries && Valid()
      modifies challenges, pending
      ensures Valid()
      ensures refusal.None? <==> row.Some?
      ensures refusal == Refused(name, from, to, gross, facts)
      ensures refusal.Some? ==>
                challenges.entries == old(challenges.entries) && pending.entries == Swept(old(pending.entries), now)
      ensures row.Some? ==>
                var i := row.value.intent;
                var s := Sys(old(challenges.entries), Swept(old(pending.entries), now), map[], now, map[], map[]);
                && i.from == from && i.to == to && i.gross == gross && i.bps == facts.bps && i.name == name
                && i.fee + i.net == i.gross && i.net > 0 && i.gross <= facts.balance && i.net <= facts.inventory
                && row.value.owner == owner
                && challenges.entries == Step(s, Prepare(id, row.value)).challenges
                && pending.entries == Step(s, Prepare(id, row.value)).pending
    {
      pending.SweepExpired(now);
      if |name| < 2 { return Some(NameRequired), None; }
      if !facts.addressOk { return Some(InvalidAddress), None; }
      if to == from { return Some(ToSelf), None; }
      if facts.trusted { return Some(PlatformAddress), None; }
      if facts.registered { return Some(UseInternalTransfer), None; }
      if gross == 0 { return Some(NotPositive), None; }
      if !facts.kycOk { return Some(KycRefused), None; }
      if facts.balance < gross { return Some(InsufficientBalance), None; }
      var fee := WithdrawalFee(gross, facts.bps);
      if fee.None? { return Some(FeeTooLarge), None; }
      var net := gross - fee.value;
      if facts.inventory < net { return Some(InsufficientReserves), None; }
      var r := Row(owner, Intent(from, to, gross, fee.value, net, facts.bps, name));
      challenges.IssueEntry(ForIntent(r.intent), (), TTL, now);
      pending.PutEntry(id, r, TTL, now);
      return None, Some(r);
    }

    /** The challenge check and its consumption are one uninterrupted step, the machine's: it
        succeeds exactly for the row's own live challenge, the right type and a signature, and
        spends the challenge even when the signature then fails. */
    method VerifyAssertion(row: Row, presented: Challenge, typeOk: bool, signatureOk: bool, now: int)
      returns (ok: bool)
      modifies challenges
      ensures var s := Sys(old(challenges.entries), map[], map[0 := Handler(0, row, Fetched)], now, map[], map[]);
              var t := Step(s, Verify(0, presented, typeOk, signatureOk));
              && challenges.entries == t.challenges
              && (ok <==> 0 in t.handlers && t.handlers[0].stage == Verified)
      ensures ok <==>
                && presented == ForIntent(row.intent) && typeOk && signatureOk
                && presented in old(challenges.entries) && now <= old(challenges.entries)[presented].expires
      ensures challenges.entries == if presented == ForIntent(row.intent) && typeOk
                                    then old(challenges.entries) - {presented} else old(challenges.entries)
    {
      if presented != ForIntent(row.intent) || !typeOk {
        return false;
      }
      var r := challenges.ConsumeEntry(presented, true, now);
      return r.Some? && signatureOk;
    }

    /** The checks before any money, each refusal with its condition: it goes on exactly when
        the row is live and the caller's, the passkey belongs to its wallet, the challenge is
        live and of exactly its intent, type and signature are good and the passkey's counter
        has not gone back. */
    method Authorise(id: nat, owner: string, from: Wallet, a: Assertion, now: int)
      returns (refused: Option<Submitted>, row: Row)
      modifies challenges, pending
      ensures pending.entries == Swept(old(pending.entries), now)
      ensures var live := id in old(pending.entries) && now <= old(pending.entries)[id].expires;
              if !live then refused == Some(HasExpired)
              else
                var i := old(pending.entries)[id].value.intent;
                var mine := row.owner == owner && i.from == from;
                var bound := mine && a.credential == Some(from) && a.presented == ForIntent(i);
                var signed := && bound && a.typeOk && a.signatureOk
                              && a.presented in old(challenges.entries)
                              && now <= old(challenges.entries)[a.presented].expires;
                var back := 0 < a.signCount <= a.lastCount;
                && row == old(pending.entries)[id].value
                && (refused == Some(NotYours) <==> !mine)
                && (refused == Some(UnknownCredential) <==> mine && a.credential == None)
                && (refused == Some(WrongCredential) <==> mine && a.credential.Some? && a.credential != Some(from))
                && (refused == Some(WrongChallenge) <==>
                      mine && a.credential == Some(from) && a.presented != ForIntent(i))
                && (refused == Some(NotVerified) <==> bound && !signed)
                && (refused == Some(CounterRegression) <==> signed && back)
                && (refused == None <==> signed && !back)
      ensures refused.None? ==> challenges.entries == old(challenges.entries) - {a.presented}
    {
      row := Row(owner, Intent(from, from, 0, 0, 0, 0, ""));
      pending.SweepExpired(now);
      var found := pending.LookUp(id, now);
      if found.None? { return Some(HasExpired), row; }
      row := found.value;
      if row.owner != owner || row.intent.from != from { return Some(NotYours), row; }
      if a.credential.None? { return Some(UnknownCredential), row; }
      if a.credential.value != row.intent.from { return Some(WrongCredential), row; }
      if a.presented != ForIntent(row.intent) { return Some(WrongChallenge), row; }
      var verified := VerifyAssertion(row, a.presented, a.typeOk, a.signatureOk, now);
      if !verified { return Some(NotVerified), row; }
      if a.signCount != 0 && a.lastCount != 0 && a.signCount <= a.lastCount {
        return Some(CounterRegression), row;
      }
      refused := None;
    }

    /** The money: nothing moves exactly when a balance is short by now; otherwise the row goes
        and the transactions are sent, and when all of them landed the sender has lost the
        gross amount, the destination has the net and the treasury the fee. */
    method PayOut(id: nat, i: Intent) returns (r: Submitted)
      requires FeeAndNet(i)
      modifies pending, backend.treasury
      ensures r == TooLittle || r == PaymentFailed || r == Executed(i)
      ensures r == TooLittle <==> Balance(old(backend.treasury.ledger), i.from, Usdc) < i.gross
                                  || Get(old(backend.treasury.ledger).inventory, Usdc) < i.net
      ensures r == TooLittle ==> unchanged(pending) && unchanged(backend.treasury)
      ensures r != TooLittle ==>
                && pending.entries == old(pending.entries) - {id}
                && backend.Sends(old(backend.treasury.ledger), old(backend.treasury.fuel),
                                 Payout(backend.platform, i), r.Executed?)
      ensures r.Executed? ==>
                var was, l := old(backend.treasury.ledger), backend.treasury.ledger;
                && (forall w :: Balance(l, w, Usdc) == Balance(was, w, Usdc)
                      - (if w == i.from then i.gross else 0) + (if w == backend.platform.treasury then i.fee else 0))
                && Get(l.external, (Usdc, i.to)) == Get(was.external, (Usdc, i.to)) + i.net
    {
      ghost var ledger, fuel := backend.treasury.ledger, backend.treasury.fuel;
      if Balance(backend.treasury.ledger, i.from, Usdc) < i.gross { return TooLittle; }
      if Get(backend.treasury.ledger.inventory, Usdc) < i.net { return TooLittle; }
      pending.Delete(id);
      assert i.gross - i.fee == i.net;
      var paid := backend.PayWithdrawal(i.from, i.to, i.gross, i.fee);
      if !paid { return PaymentFailed; }
      PaidOut(ledger, backend.platform, i, fuel);
      return Executed(i);
    }

    /** One submission on its own: no money moves unless every check passed, and then what
        moves is what the row says. */
    method SubmitWithdrawal(id: nat, owner: string, from: Wallet, a: Assertion, now: int)
      returns (r: Submitted)
      requires Valid()
      modifies challenges, pending, backend.treasury
      ensures Valid()
      ensures var live := id in old(pending.entries) && now <= old(pending.entries)[id].expires;
              && (r == HasExpired <==> !live)
              && (live ==>
                    var row := old(pending.entries)[id].value;
                    var i, was := row.intent, old(backend.treasury.ledger);
                    var mine := row.owner == owner && i.from == from;
                    var checked := mine && a.credential == Some(from) && a.presented == ForIntent(i);
                    var signed := && checked && a.typeOk && a.signatureOk
                                  && a.presented in old(challenges.entries)
                                  && now <= old(challenges.entries)[a.presented].expires;
                    var back := 0 < a.signCount <= a.lastCount;
                    var enough := i.gross <= Balance(was, from, Usdc) && i.net <= Get(was.inventory, Usdc);
                    && (r == NotYours <==> !mine)
                    && (r == UnknownCredential <==> mine && a.credential == None)
                    && (r == WrongCredential <==> mine && a.credential.Some? && a.credential != Some(from))
                    && (r == WrongChallenge <==> mine && a.credential == Some(from) && a.presented != ForIntent(i))
                    && (r == NotVerified <==> checked && !signed)
                    && (r == CounterRegression <==> signed && back)
                    && (r == TooLittle <==> signed && !back && !enough)
                    && (r == PaymentFailed || r == Executed(i) <==> signed && !back && enough)
                    && (r == PaymentFailed || r == Executed(i) ==>
                          && id !in pending.entries && a.presented !in challenges.entries
                          && backend.Sends(was, old(backend.treasury.fuel), Payout(backend.platform, i), r.Executed?)))
      ensures !(r == PaymentFailed || r.Executed?) ==> unchanged(backend.treasury)
    {
      var refused, row := Authorise(id, owner, from, a, now);
      if refused.Some? {
        return refused.value;
      }
      r := PayOut(id, row.intent);
    }
  }
}
