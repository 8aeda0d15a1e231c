/** kycSpendService.ts: send limits checked when a send is prepared and spent when it is
    submitted, with several sends of one wallet prepared at the same time. */
module KycSpend {
  import opened Wrappers
  import opened Sums

  // ---- Time, as the UTC calendar fields the service reads ----

  type DayOfMonth = d: int | 1 <= d <= 31 witness 1

  /** month counts calendar months; ms is the time within the day. */
  datatype Instant = Instant(month: nat, day: DayOfMonth, ms: nat)

  predicate NotBefore(a: Instant, b: Instant) {
    a.month > b.month || (a.month == b.month && (a.day > b.day || (a.day == b.day && a.ms >= b.ms)))
  }

  datatype Period = Day | Month

  function StartOf(p: Period, t: Instant): Instant {
    if p == Day then Instant(t.month, t.day, 0) else Instant(t.month, 1, 0)
  }

  /** Two times share their month and, for a day, their day of the month as well. */
  predicate Together(p: Period, a: Instant, b: Instant) {
    a.month == b.month && (p == Day ==> a.day == b.day)
  }

  lemma StartsTogether(p: Period, a: Instant, b: Instant)
    ensures StartOf(p, a) == StartOf(p, b) <==> a.month == b.month && (p == Day ==> a.day == b.day)
    ensures NotBefore(a, StartOf(p, a)) && StartOf(p, a).month == a.month && (p == Day ==> StartOf(p, a).day == a.day)
  {
  }

  // ---- The spend table and the limits ----

  /** One spend event; checked is what the limit check saw for the same send. */
  datatype Spend = Spend(at: Instant, units: nat, checked: nat)

  datatype Limits = Limits(maxSingleTx: Option<nat>, maxDailySend: Option<nat>, maxMonthlySpend: Option<nat>)

  datatype FailCode = LevelMissing | SingleExceeded | DailyExceeded | MonthlyExceeded

  datatype SpendCheck = Allowed(spentToday: nat, spentMonth: nat) | Refused(code: FailCode)

  function SumSince(rows: seq<Spend>, since: Instant): nat {
    if rows == [] then 0
    else
      var row := rows[|rows| - 1];
      SumSince(rows[..|rows| - 1], since) + if NotBefore(row.at, since) then row.units else 0
  }

  predicate Over(limit: Option<nat>, units: nat) {
    limit.Some? && units > limit.value
  }

  function Check(limits: Option<Limits>, rows: seq<Spend>, now: Instant, units: nat): SpendCheck {
    if limits.None? then Refused(LevelMissing)
    else if Over(limits.value.maxSingleTx, units) then Refused(SingleExceeded)
    else
      var today, month := SumSince(rows, StartOf(Day, now)), SumSince(rows, StartOf(Month, now));
      if Over(limits.value.maxDailySend, today + units) then Refused(DailyExceeded)
      else if Over(limits.value.maxMonthlySpend, month + units) then Refused(MonthlyExceeded)
      else Allowed(today, month)
  }

  predicate IsUsd(code: string) {
    code == "USDC" || code == "USD"
  }

  /** Only USDC has six decimals. */
  function Major(units: nat, code: string): real {
    units as real / if code == "USDC" then 1000000.0 else 100.0
  }

  /** Dollars in hundredths of a rand, to the nearest. */
  function Valued(major: real, rate: real): int {
    (major * rate * 100.0 + 0.5).Floor
  }

  /** toLimitUnits: only the two USD codes are converted, at 18 rand to the dollar when no
      positive rate is known. */
  function ToLimitUnits(units: nat, code: string, zarPerUsd: Option<real>): int {
    if !IsUsd(code) then units
    else if units == 0 then 0
    else Valued(Major(units, code), if zarPerUsd.Some? && zarPerUsd.value > 0.0 then zarPerUsd.value else 18.0)
  }

  lemma FloorGap(x: real, y: real)
    requires x <= y
    ensures 0 <= y.Floor - x.Floor && (y.Floor - x.Floor) as real <= y - x + 1.0
  {
    assert x.Floor as real <= x < x.Floor as real + 1.0;
    assert y.Floor as real <= y < y.Floor as real + 1.0;
  }

  lemma ValuedGap(major: real, a: real, b: real)
    requires major >= 0.0 && a <= b
    ensures 0 <= Valued(major, b) - Valued(major, a)
    ensures (Valued(major, b) - Valued(major, a)) as real <= major * (b - a) * 100.0 + 1.0
  {
    assert major * (b - a) >= 0.0;
    assert major * b == major * a + major * (b - a);
    FloorGap(major * a * 100.0 + 0.5, major * b * 100.0 + 0.5);
  }

  /** Between check and record a send slips by no more than the rate moved on its amount,
      and one unit; not at all outside USD or when the rate stood still. */
  lemma ValuationSlip(units: nat, code: string, before: real, after: real)
    requires before > 0.0 && after > 0.0
    ensures var checked, recorded := ToLimitUnits(units, code, Some(before)), ToLimitUnits(units, code, Some(after));
            && (!IsUsd(code) || before == after ==> recorded == checked)
            && (IsUsd(code) && after >= before ==>
                  && checked <= recorded
                  && (recorded - checked) as real <= Major(units, code) * (after - before) * 100.0 + 1.0)
  {
    var major := Major(units, code);
    if IsUsd(code) && after >= before {
      ValuedGap(major, before, after);
      assert major * (after - before) >= 0.0;
    }
  }

  /** A dollar amount counts as hundredths of a rand, to the nearest and a half upwards, at
      18 rand to the dollar when no positive rate is known; anything else as it is. */
  lemma LimitUnitsAre(units: nat, code: string, rate: Option<real>)
    ensures code != "USDC" && code != "USD" ==> ToLimitUnits(units, code, rate) == units
    ensures code == "USDC" || code == "USD" ==>
              var zar := if rate.Some? && rate.value > 0.0 then rate.value else 18.0;
              var exact := units as real * zar * 100.0 / if code == "USDC" then 1000000.0 else 100.0;
              exact - 0.5 < ToLimitUnits(units, code, rate) as real <= exact + 0.5
  {
    if code == "USDC" || code == "USD" {
      var zar := if rate.Some? && rate.value > 0.0 then rate.value else 18.0;
      var scale := if code == "USDC" then 1000000.0 else 100.0;
      assert units as real / scale * zar * 100.0 == units as real * zar * 100.0 / scale;
      assert units == 0 ==> units as real * zar == 0.0;
    }
  }

  // ---- Runs of one wallet ----

  /** now is the time of the last event; pending holds the checked units of every send
      that was prepared and neither recorded nor given up. */
  datatype State = State(now: Instant, rows: seq<Spend>, pending: map<nat, nat>)

  /** A send keeps its checked units (withdrawals) or is valued again when recorded
      (transfers), so a record names its own units. */
  datatype Event =
    | Prepare(id: nat, at: Instant, units: nat)
    | Record(id: nat, at: Instant, units: nat)
    | GiveUp(id: nat, at: Instant)

  function Step(l: Limits, s: State, e: Event): State {
    match e
    case Prepare(id, at, units) =>
      if id !in s.pending && Check(Some(l), s.rows, at, units).Allowed?
      then State(at, s.rows, s.pending[id := units])
      else s.(now := at)
    case Record(id, at, units) =>
      if id in s.pending then State(at, s.rows + [Spend(at, units, s.pending[id])], s.pending - {id})
      else s.(now := at)
    case GiveUp(id, at) => State(at, s.rows, s.pending - {id})
  }

  function After(l: Limits, s: State, events: seq<Event>): State {
    if events == [] then s else Step(l, After(l, s, events[..|events| - 1]), events[|events| - 1])
  }

  predicate InOrder(start: Instant, events: seq<Event>) {
    && (events != [] ==> NotBefore(events[0].at, start))
    && forall i, j :: 0 <= i < j < |events| ==> NotBefore(events[j].at, events[i].at)
  }

  /** At no time are more than k sends outstanding. */
  predicate AtMostOutstanding(l: Limits, s: State, events: seq<Event>, k: nat) {
    |After(l, s, events).pending| <= k
    && (events != [] ==> AtMostOutstanding(l, s, events[..|events| - 1], k))
  }

  // ---- What a period accumulates ----

  function SumOn(rows: seq<Spend>, p: Period, t: Instant): nat {
    if rows == [] then 0
    else
      var row := rows[|rows| - 1];
      SumOn(rows[..|rows| - 1], p, t) + if Together(p, row.at, t) then row.units else 0
  }

  function SpentInMonth(rows: seq<Spend>, month: nat): nat {
    if rows == [] then 0
    else
      var row := rows[|rows| - 1];
      SpentInMonth(rows[..|rows| - 1], month) + if row.at.month == month then row.units else 0
  }

  function SpentOnDay(rows: seq<Spend>, month: nat, day: DayOfMonth): nat {
    if rows == [] then 0
    else
      var row := rows[|rows| - 1];
      SpentOnDay(rows[..|rows| - 1], month, day)
      + if row.at.month == month && row.at.day == day then row.units else 0
  }

  lemma {:induction false} SpentIs(rows: seq<Spend>, t: Instant)
    ensures SumOn(rows, Month, t) == SpentInMonth(rows, t.month)
    ensures SumOn(rows, Day, t) == SpentOnDay(rows, t.month, t.day)
  {
    if rows != [] {
      SpentIs(rows[..|rows| - 1], t);
    }
  }

  /** How far the sends of the period were recorded above what was checked. */
  function Slip(rows: seq<Spend>, p: Period, t: Instant): nat {
    if rows == [] then 0
    else
      var row := rows[|rows| - 1];
      Slip(rows[..|rows| - 1], p, t)
      + if Together(p, row.at, t) && row.units > row.checked then row.units - row.checked else 0
  }

  function Cap(l: Limits, p: Period): Option<nat> {
    if p == Day then l.maxDailySend else l.maxMonthlySpend
  }

  function Other(p: Period): Period {
    if p == Day then Month else Day
  }

  function AtMost(limit: Option<nat>, units: nat): nat {
    if limit.Some? && limit.value < units then limit.value else units
  }

  /** The most one accepted send can be: the least of the three limits. */
  function PerSend(l: Limits, p: Period): nat
    requires Cap(l, p).Some?
  {
    AtMost(l.maxSingleTx, AtMost(Cap(l, Other(p)), Cap(l, p).value))
  }

  function Bound(l: Limits, p: Period, k: nat): nat
    requires Cap(l, p).Some? && k >= 1
  {
    Cap(l, p).value + (k - 1) * PerSend(l, p)
  }

  ghost predicate Inv(l: Limits, s: State, p: Period, k: nat)
    requires Cap(l, p).Some? && k >= 1
  {
    && (forall i :: 0 <= i < |s.rows| ==> NotBefore(s.now, s.rows[i].at))
    && (forall id :: id in s.pending ==> s.pending[id] <= PerSend(l, p))
    && (forall t: Instant :: SumOn(s.rows, p, t) <= Bound(l, p, k) + Slip(s.rows, p, t))
    && SumOn(s.rows, p, s.now) + Total(s.pending) <= Bound(l, p, k) + Slip(s.rows, p, s.now)
  }

  /** What the events of a send do: an allowed prepare puts it out with its checked units, its
      record adds one row of its own units and takes it in again, and giving up takes it in
      and adds nothing. */
  lemma SendEvents(l: Limits, s: State, id: nat, at: Instant, units: nat, later: Instant, recorded: nat)
    requires id !in s.pending && Check(Some(l), s.rows, at, units).Allowed?
    ensures var out := Step(l, s, Prepare(id, at, units));
            && out == State(at, s.rows, s.pending[id := units])
            && Step(l, out, Record(id, later, recorded))
               == State(later, s.rows + [Spend(later, recorded, units)], s.pending)
            && Step(l, out, GiveUp(id, later)) == State(later, s.rows, s.pending)
  {
    assert s.pending[id := units] - {id} == s.pending;
  }

  /** A refused send and a record of nothing leave only the time changed. */
  lemma NoSend(l: Limits, s: State, id: nat, at: Instant, units: nat)
    ensures !Check(Some(l), s.rows, at, units).Allowed? ==> Step(l, s, Prepare(id, at, units)) == s.(now := at)
    ensures id !in s.pending ==> Step(l, s, Record(id, at, units)) == s.(now := at)
  {
  }

  /** What the sends of a period were checked for. */
  function CheckedOn(rows: seq<Spend>, p: Period, t: Instant): nat {
    if rows == [] then 0
    else
      var row := rows[|rows| - 1];
      CheckedOn(rows[..|rows| - 1], p, t)
      + if row.at.month == t.month && (p == Day ==> row.at.day == t.day) then row.checked else 0
  }

  /** The slip is no more than what was recorded above the checks: it bounds the recorded total
      by the checked one, exactly so when nothing was recorded below its check. */
  lemma {:induction false} SlipIsExcess(rows: seq<Spend>, p: Period, t: Instant)
    ensures SumOn(rows, p, t) <= CheckedOn(rows, p, t) + Slip(rows, p, t)
    ensures (forall i :: 0 <= i < |rows| ==> rows[i].checked <= rows[i].units) ==>
              SumOn(rows, p, t) == CheckedOn(rows, p, t) + Slip(rows, p, t)
    ensures (forall i :: 0 <= i < |rows| ==> rows[i].units <= rows[i].checked) ==> Slip(rows, p, t) == 0
  {
    if rows != [] {
      var n := |rows| - 1;
      SlipIsExcess(rows[..n], p, t);
      assert forall i :: 0 <= i < n ==> rows[..n][i] == rows[i];
    }
  }

  // ---- Proof ----

  lemma OneMore(n: nat, e: nat)
    ensures (n + 1) * e == n * e + e
  {
  }

  lemma {:induction false} TotalAtMost(m: map<nat, nat>, e: nat)
    requires forall id :: id in m ==> m[id] <= e
    ensures Total(m) <= |m| * e
    decreases |m|
  {
    if m == map[] {
      assert Total(m) == 0;
    } else {
      var id :| id in m;
      var rest := m - {id};
      assert rest.Keys == m.Keys - {id} && |rest| == |rest.Keys| && |m| == |m.Keys|;
      TotalRemove(m, id);
      TotalAtMost(rest, e);
      OneMore(|rest|, e);
    }
  }

  /** What the service sums from the start of the period is what lies in the period. */
  lemma {:induction false} SinceIsOn(rows: seq<Spend>, p: Period, now: Instant)
    requires forall i :: 0 <= i < |rows| ==> NotBefore(now, rows[i].at)
    ensures SumSince(rows, StartOf(p, now)) == SumOn(rows, p, now)
  {
    if rows != [] {
      SinceIsOn(rows[..|rows| - 1], p, now);
    }
  }

  lemma {:induction false} SamePeriod(rows: seq<Spend>, p: Period, a: Instant, b: Instant)
    requires StartOf(p, a) == StartOf(p, b)
    ensures SumOn(rows, p, a) == SumOn(rows, p, b) && Slip(rows, p, a) == Slip(rows, p, b)
  {
    if rows != [] {
      SamePeriod(rows[..|rows| - 1], p, a, b);
    }
  }

  lemma {:induction false} NewPeriod(rows: seq<Spend>, p: Period, now: Instant, at: Instant)
    requires forall i :: 0 <= i < |rows| ==> NotBefore(now, rows[i].at)
    requires NotBefore(at, now) && StartOf(p, at) != StartOf(p, now)
    ensures SumOn(rows, p, at) == 0
  {
    if rows != [] {
      NewPeriod(rows[..|rows| - 1], p, now, at);
      assert NotBefore(now, rows[|rows| - 1].at);
    }
  }

  lemma BoundCovers(l: Limits, p: Period, k: nat, n: nat, m: nat)
    requires Cap(l, p).Some? && k >= 1
    ensures n <= k && m <= n * PerSend(l, p) ==> m <= Bound(l, p, k)
    ensures n < k && m <= n * PerSend(l, p) ==> Cap(l, p).value + m <= Bound(l, p, k)
  {
    var e := PerSend(l, p);
    assert n <= k ==> n * e <= k * e;
    assert n < k ==> n * e <= (k - 1) * e;
    assert k * e == (k - 1) * e + e;
  }

  lemma ClockKeeps(l: Limits, s: State, p: Period, k: nat, at: Instant)
    requires Cap(l, p).Some? && k >= 1 && Inv(l, s, p, k)
    requires |s.pending| <= k && NotBefore(at, s.now)
    ensures Inv(l, s.(now := at), p, k)
  {
    if StartOf(p, at) == StartOf(p, s.now) {
      SamePeriod(s.rows, p, at, s.now);
    } else {
      NewPeriod(s.rows, p, s.now, at);
      TotalAtMost(s.pending, PerSend(l, p));
      TotalNonNegative(s.pending);
      BoundCovers(l, p, k, |s.pending|, Total(s.pending));
    }
  }

  lemma PrepareKeeps(l: Limits, s: State, p: Period, k: nat, id: nat, units: nat)
    requires Cap(l, p).Some? && k >= 1 && Inv(l, s, p, k)
    requires id !in s.pending && |s.pending| < k
    requires Check(Some(l), s.rows, s.now, units).Allowed?
    ensures Inv(l, s.(pending := s.pending[id := units]), p, k)
  {
    SinceIsOn(s.rows, Day, s.now);
    SinceIsOn(s.rows, Month, s.now);
    TotalAtMost(s.pending, PerSend(l, p));
    TotalNonNegative(s.pending);
    BoundCovers(l, p, k, |s.pending|, Total(s.pending));
    TotalUpdate(s.pending, id, units);
  }

  lemma RecordKeeps(l: Limits, s: State, p: Period, k: nat, id: nat, units: nat)
    requires Cap(l, p).Some? && k >= 1 && Inv(l, s, p, k) && id in s.pending
    ensures Inv(l, State(s.now, s.rows + [Spend(s.now, units, s.pending[id])], s.pending - {id}), p, k)
  {
    var rows := s.rows + [Spend(s.now, units, s.pending[id])];
    assert rows[..|rows| - 1] == s.rows;
    TotalRemove(s.pending, id);
    TotalNonNegative(s.pending - {id});
    forall t: Instant
      ensures SumOn(rows, p, t) <= Bound(l, p, k) + Slip(rows, p, t)
    {
      if StartOf(p, t) == StartOf(p, s.now) {
        SamePeriod(s.rows, p, t, s.now);
      }
    }
  }

  lemma {:induction false} StepKeeps(l: Limits, s: State, e: Event, p: Period, k: nat)
    requires Cap(l, p).Some? && k >= 1 && Inv(l, s, p, k)
    requires |s.pending| <= k && |Step(l, s, e).pending| <= k && NotBefore(e.at, s.now)
    ensures Inv(l, Step(l, s, e), p, k)
  {
    ClockKeeps(l, s, p, k, e.at);
    var t := s.(now := e.at);
    match e
    case Prepare(id, at, units) =>
      if id !in s.pending && Check(Some(l), s.rows, at, units).Allowed? {
        assert Step(l, s, e).pending.Keys == s.pending.Keys + {id};
        PrepareKeeps(l, t, p, k, id, units);
      }
    case Record(id, at, units) =>
      if id in s.pending {
        RecordKeeps(l, t, p, k, id, units);
      }
    case GiveUp(id, at) =>
      if id in s.pending {
        TotalRemove(s.pending, id);
      } else {
        assert s.pending - {id} == s.pending;
      }
  }

  lemma {:induction false} RunKeeps(l: Limits, s: State, events: seq<Event>, p: Period, k: nat)
    requires Cap(l, p).Some? && k >= 1 && s.rows == [] && s.pending == map[]
    requires InOrder(s.now, events) && AtMostOutstanding(l, s, events, k)
    ensures Inv(l, After(l, s, events), p, k)
    ensures After(l, s, events).now == if events == [] then s.now else events[|events| - 1].at
  {
    if events != [] {
      var init := events[..|events| - 1];
      assert forall i :: 0 <= i < |init| ==> init[i] == events[i];
      RunKeeps(l, s, init, p, k);
      var last := |events| - 1;
      assert last > 0 ==> NotBefore(events[last].at, events[last - 1].at);
      StepKeeps(l, After(l, s, init), events[|events| - 1], p, k);
    }
  }

  /** With at most k sends outstanding at any time, no day and no month records more than
      its limit plus k - 1 single sends, beyond what later valuations added. */
  lemma LimitsWithOverlap(l: Limits, s: State, events: seq<Event>, p: Period, k: nat, t: Instant)
    requires Cap(l, p).Some? && k >= 1 && s.rows == [] && s.pending == map[]
    requires InOrder(s.now, events) && AtMostOutstanding(l, s, events, k)
    ensures var rows := After(l, s, events).rows;
            SumOn(rows, p, t) <= Cap(l, p).value + (k - 1) * PerSend(l, p) + Slip(rows, p, t)
  {
    RunKeeps(l, s, events, p, k);
  }

  /** One send at a time, recorded as checked: the limit itself holds. */
  lemma LimitExactly(l: Limits, s: State, events: seq<Event>, p: Period, t: Instant)
    requires Cap(l, p).Some? && s.rows == [] && s.pending == map[]
    requires InOrder(s.now, events) && AtMostOutstanding(l, s, events, 1)
    requires AllAsChecked(After(l, s, events).rows)
    ensures SumOn(After(l, s, events).rows, p, t) <= Cap(l, p).value
  {
    LimitsWithOverlap(l, s, events, p, 1, t);
    assert (1 - 1) * PerSend(l, p) == 0;
    NoSlip(After(l, s, events).rows, p, t);
  }

  predicate AllAsChecked(rows: seq<Spend>) {
    forall i :: 0 <= i < |rows| ==> rows[i].units == rows[i].checked
  }

  lemma {:induction false} NoSlip(rows: seq<Spend>, p: Period, t: Instant)
    requires AllAsChecked(rows)
    ensures Slip(rows, p, t) == 0
  {
    if rows != [] {
      NoSlip(rows[..|rows| - 1], p, t);
    }
  }

  // ---- The overlap is real ----

  /** At a time no row is later than, what lies in its month and in its day. */
  ghost predicate Holds(rows: seq<Spend>, at: Instant, month: nat, today: nat) {
    && AllAsChecked(rows)
    && (forall i :: 0 <= i < |rows| ==> NotBefore(at, rows[i].at))
    && SumOn(rows, Month, at) == month && SumOn(rows, Day, at) == today
  }

  /** Later on the same day, or on a later day of the month. */
  lemma HoldsLater(rows: seq<Spend>, at: Instant, later: Instant, month: nat, today: nat)
    requires Holds(rows, at, month, today) && NotBefore(later, at) && later.month == at.month
    ensures Holds(rows, later, month, if later.day == at.day then today else 0)
  {
    SamePeriod(rows, Month, later, at);
    if later.day == at.day {
      SamePeriod(rows, Day, later, at);
    } else {
      NewPeriod(rows, Day, at, later);
    }
  }

  lemma HoldsMore(rows: seq<Spend>, at: Instant, month: nat, today: nat, units: nat)
    requires Holds(rows, at, month, today)
    ensures Holds(rows + [Spend(at, units, units)], at, month + units, today + units)
  {
    var more := rows + [Spend(at, units, units)];
    assert more[..|rows|] == rows;
  }

  /** The limits leave room for a send on top of what the month and the day hold. */
  predicate Room(l: Limits, month: nat, today: nat, units: nat) {
    !Over(l.maxSingleTx, units) && !Over(l.maxDailySend, today + units) && !Over(l.maxMonthlySpend, month + units)
  }

  function Fresh(at: Instant): State {
    State(at, [], map[])
  }

  /** What month and day hold; the sends lo+1 to hi, of e units each, are out. */
  datatype Mark = Mark(month: nat, today: nat, lo: nat, hi: nat, e: nat)

  ghost predicate Out(pending: map<nat, nat>, m: Mark) {
    && m.lo <= m.hi && |pending| == m.hi - m.lo
    && (forall id :: id in pending <==> m.lo < id <= m.hi)
    && (forall id :: id in pending ==> pending[id] == m.e)
  }

  ghost predicate Shows(s: State, at: Instant, m: Mark) {
    Holds(s.rows, at, m.month, m.today) && Out(s.pending, m)
  }

  lemma PrepareShows(l: Limits, s: State, at: Instant, m: Mark)
    requires Shows(s, at, m) && m.lo == 0 && Room(l, m.month, m.today, m.e)
    ensures Shows(Step(l, s, Prepare(m.hi + 1, at, m.e)), at, m.(hi := m.hi + 1))
  {
    SinceIsOn(s.rows, Day, at);
    SinceIsOn(s.rows, Month, at);
    assert Check(Some(l), s.rows, at, m.e).Allowed?;
    OneMoreOut(s.pending, m);
  }

  lemma OneMoreOut(pending: map<nat, nat>, m: Mark)
    requires Out(pending, m) && m.lo == 0
    ensures Out(pending[m.hi + 1 := m.e], m.(hi := m.hi + 1))
  {
    var q := pending[m.hi + 1 := m.e];
    assert q.Keys == pending.Keys + {m.hi + 1} && |q| == |q.Keys| && |pending| == |pending.Keys|;
    assert forall id :: id in q <==> id in pending || id == m.hi + 1;
  }

  lemma OneFewerOut(pending: map<nat, nat>, m: Mark)
    requires Out(pending, m) && m.lo < m.hi
    ensures Out(pending - {m.lo + 1}, m.(lo := m.lo + 1))
  {
    var q := pending - {m.lo + 1};
    assert q.Keys == pending.Keys - {m.lo + 1} && |q| == |q.Keys| && |pending| == |pending.Keys|;
  }

  lemma RecordShows(l: Limits, s: State, at: Instant, m: Mark)
    requires Shows(s, at, m) && m.lo < m.hi
    ensures Shows(Step(l, s, Record(m.lo + 1, at, m.e)), at,
                  m.(month := m.month + m.e, today := m.today + m.e, lo := m.lo + 1))
  {
    HoldsMore(s.rows, at, m.month, m.today, m.e);
    OneFewerOut(s.pending, m);
  }

  /** A run that records f sends of one unit one by one, d of them a day from the start on,
      and then, days days after the start, prepares k sends of e units before it records
      the first of them. */
  datatype Script = Script(start: Instant, d: nat, days: nat, f: nat, k: nat, e: nat)

  /** Day and place within the day of the i-th single unit. */
  function Place(d: nat, i: nat): (r: (nat, nat))
    requires d >= 1
    ensures r.1 < d && r.0 * d + r.1 == i
  {
    if i == 0 then (0, 0)
    else
      var (q, r) := Place(d, i - 1);
      OneMore(q, d);
      if r + 1 == d then (q + 1, 0) else (q, r + 1)
  }

  /** The limits admit every send of the script. */
  ghost predicate Fits(l: Limits, c: Script) {
    && c.k >= 1 && 1 <= c.e <= c.d && c.f + c.e <= (c.days + 1) * c.d
    && c.start.day + c.days <= 31
    && !Over(l.maxSingleTx, c.e) && !Over(l.maxDailySend, c.d) && !Over(l.maxMonthlySpend, c.f + c.e)
  }

  lemma PlaceWithin(d: nat, i: nat, days: nat)
    requires d >= 1 && i < (days + 1) * d
    ensures Place(d, i).0 <= days
    ensures Place(d, i).0 == days ==> Place(d, i).1 == i - days * d
    ensures Place(d, i).0 < days ==> i < days * d
  {
    var (q, r) := Place(d, i);
    OneMore(q, d);
    Multiples(days + 1, q, d);
    Multiples(q + 1, days, d);
  }

  lemma Multiples(a: nat, b: nat, d: nat)
    ensures a <= b ==> a * d <= b * d
  {
  }

  function OnDay(start: Instant, q: nat): Instant {
    if start.day + q <= 31 then Instant(start.month, start.day + q, start.ms) else start
  }

  function When(c: Script, j: nat): Instant
    requires c.d >= 1
  {
    OnDay(c.start, if j < 2 * c.f then Place(c.d, j / 2).0 else c.days)
  }

  function EventAt(c: Script, j: nat): Event
    requires c.d >= 1
  {
    if j < 2 * c.f then (if j % 2 == 0 then Prepare(1, When(c, j), 1) else Record(1, When(c, j), 1))
    else if j < 2 * c.f + c.k then Prepare(j - 2 * c.f + 1, When(c, j), c.e)
    else Record(j - 2 * c.f - c.k + 1, When(c, j), c.e)
  }

  function Events(c: Script, n: nat): (es: seq<Event>)
    requires c.d >= 1
    ensures |es| == n && forall j :: 0 <= j < n ==> es[j] == EventAt(c, j)
  {
    seq(n, j requires 0 <= j => EventAt(c, j))
  }

  function Times(n: nat, e: nat): nat {
    if n == 0 then 0 else Times(n - 1, e) + e
  }

  lemma {:induction false} TimesIs(n: nat, e: nat)
    ensures Times(n, e) == n * e
  {
    if n > 0 {
      TimesIs(n - 1, e);
      OneMore(n - 1, e);
    }
  }

  /** What the last day of the script holds before its k sends. */
  function LastDay(c: Script): nat {
    if c.f > c.days * c.d then c.f - c.days * c.d else 0
  }

  /** Where the script stands before event j, at the time of event j. */
  function MarkAt(c: Script, j: nat): Mark
    requires c.d >= 1
  {
    if j < 2 * c.f then Mark(j / 2, Place(c.d, j / 2).1, 0, j % 2, 1)
    else if j < 2 * c.f + c.k then Mark(c.f, LastDay(c), 0, j - 2 * c.f, c.e)
    else
      var done := Times(j - 2 * c.f - c.k, c.e);
      Mark(c.f + done, LastDay(c) + done, j - 2 * c.f - c.k, c.k, c.e)
  }

  /** From one single unit to the next, on the same day or the following one. */
  lemma NextPlace(d: nat, i: nat)
    requires d >= 1
    ensures Place(d, i + 1) == (Place(d, i).0, Place(d, i).1 + 1) || Place(d, i + 1) == (Place(d, i).0 + 1, 0)
  {
  }

  lemma {:induction false} PlaceMonotone(d: nat, i: nat, j: nat)
    requires d >= 1 && i <= j
    ensures Place(d, i).0 <= Place(d, j).0
  {
    if i < j {
      PlaceMonotone(d, i, j - 1);
      NextPlace(d, j - 1);
    }
  }

  lemma WhenMonotone(l: Limits, c: Script, i: nat, j: nat)
    requires Fits(l, c) && i <= j
    ensures NotBefore(When(c, j), When(c, i)) && NotBefore(When(c, i), c.start)
    ensures When(c, i).month == c.start.month
  {
    if i < 2 * c.f {
      PlaceWithin(c.d, i / 2, c.days);
    }
    if j < 2 * c.f {
      PlaceWithin(c.d, j / 2, c.days);
      PlaceMonotone(c.d, i / 2, j / 2);
    }
  }

  /** A single unit is prepared, and nothing else moves. */
  lemma UnitPrepared(l: Limits, s: State, c: Script, j: nat)
    requires Fits(l, c) && j < 2 * c.f && j % 2 == 0 && Shows(s, When(c, j), MarkAt(c, j))
    ensures Shows(Step(l, s, EventAt(c, j)), When(c, j + 1), MarkAt(c, j + 1))
  {
    PrepareShows(l, s, When(c, j), MarkAt(c, j));
    assert (j + 1) / 2 == j / 2;
  }

  lemma UnitStands(c: Script, i: nat)
    requires c.d >= 1 && i < c.f
    ensures When(c, 2 * i) == When(c, 2 * i + 1) == OnDay(c.start, Place(c.d, i).0)
    ensures MarkAt(c, 2 * i) == Mark(i, Place(c.d, i).1, 0, 0, 1)
    ensures MarkAt(c, 2 * i + 1) == Mark(i, Place(c.d, i).1, 0, 1, 1)
  {
    assert (2 * i + 1) / 2 == i && (2 * i) / 2 == i && (2 * i + 1) % 2 == 1;
  }

  /** The last single unit, on the last day or before it. */
  lemma LastUnit(l: Limits, c: Script)
    requires Fits(l, c) && c.f > 0
    ensures var (q, r) := Place(c.d, c.f - 1);
            q <= c.days && LastDay(c) == if q == c.days then r + 1 else 0
  {
    PlaceWithin(c.d, c.f - 1, c.days);
  }

  /** The event after a record is on the same day, or on a later one that holds nothing. */
  lemma AfterRecord(l: Limits, c: Script, i: nat)
    requires Fits(l, c) && i < c.f
    ensures var next, (q, r) := MarkAt(c, 2 * i + 2), Place(c.d, i);
            && next.month == i + 1 && next.lo == next.hi == 0
            && next.today == if When(c, 2 * i + 2).day == OnDay(c.start, q).day then r + 1 else 0
  {
    PlaceWithin(c.d, i, c.days);
    if i + 1 == c.f {
      LastUnit(l, c);
    } else {
      UnitStands(c, i + 1);
      NextPlace(c.d, i);
      PlaceWithin(c.d, i + 1, c.days);
    }
  }

  /** It is recorded: the next one belongs to the same day or to a new one. */
  lemma UnitRecorded(l: Limits, s: State, c: Script, i: nat)
    requires Fits(l, c) && i < c.f && Shows(s, When(c, 2 * i + 1), MarkAt(c, 2 * i + 1))
    ensures Shows(Step(l, s, EventAt(c, 2 * i + 1)), When(c, 2 * i + 2), MarkAt(c, 2 * i + 2))
  {
    var j := 2 * i + 1;
    var m, t := MarkAt(c, j), Step(l, s, EventAt(c, j));
    UnitStands(c, i);
    AfterRecord(l, c, i);
    RecordShows(l, s, When(c, j), m);
    WhenMonotone(l, c, j, j + 1);
    WhenMonotone(l, c, j + 1, j + 1);
    HoldsLater(t.rows, When(c, j), When(c, j + 1), m.month + 1, m.today + 1);
    NoneOut(t.pending, m.(lo := 1), MarkAt(c, j + 1));
  }

  /** With nothing out, the size of the next sends may change. */
  lemma NoneOut(pending: map<nat, nat>, m: Mark, next: Mark)
    requires Out(pending, m) && m.lo == m.hi && next.lo == next.hi
    ensures Out(pending, next)
  {
  }

  lemma OverlapStep(l: Limits, s: State, c: Script, j: nat)
    requires Fits(l, c) && 2 * c.f <= j < 2 * c.f + c.k && Shows(s, When(c, j), MarkAt(c, j))
    ensures Shows(Step(l, s, EventAt(c, j)), When(c, j + 1), MarkAt(c, j + 1))
  {
    OneMore(c.days, c.d);
    PrepareShows(l, s, When(c, j), Mark(c.f, LastDay(c), 0, j - 2 * c.f, c.e));
    assert MarkAt(c, j + 1) == Mark(c.f, LastDay(c), 0, j - 2 * c.f + 1, c.e);
  }

  lemma DrainStep(l: Limits, s: State, c: Script, j: nat)
    requires Fits(l, c) && 2 * c.f + c.k <= j < 2 * c.f + 2 * c.k && Shows(s, When(c, j), MarkAt(c, j))
    ensures Shows(Step(l, s, EventAt(c, j)), When(c, j + 1), MarkAt(c, j + 1))
  {
    var i := j - 2 * c.f - c.k;
    RecordShows(l, s, When(c, j), MarkAt(c, j));
    assert Times(i + 1, c.e) == Times(i, c.e) + c.e;
  }

  lemma ScriptStep(l: Limits, s: State, c: Script, j: nat)
    requires Fits(l, c) && j < 2 * c.f + 2 * c.k && Shows(s, When(c, j), MarkAt(c, j))
    ensures Shows(Step(l, s, EventAt(c, j)), When(c, j + 1), MarkAt(c, j + 1))
  {
    if 2 * c.f + c.k <= j {
      DrainStep(l, s, c, j);
    } else if 2 * c.f <= j {
      OverlapStep(l, s, c, j);
    } else if j % 2 == 0 {
      UnitPrepared(l, s, c, j);
    } else {
      var i := j / 2;
      assert j == 2 * i + 1;
      UnitRecorded(l, s, c, i);
    }
  }

  lemma EventsAfter(l: Limits, s: State, c: Script, n: nat)
    requires n > 0 && c.d >= 1
    ensures After(l, s, Events(c, n)) == Step(l, After(l, s, Events(c, n - 1)), EventAt(c, n - 1))
    ensures Events(c, n)[..n - 1] == Events(c, n - 1)
  {
    assert Events(c, n)[..n - 1] == Events(c, n - 1);
  }

  lemma {:induction false} ScriptShows(l: Limits, c: Script, n: nat)
    requires Fits(l, c) && n <= 2 * c.f + 2 * c.k
    ensures Shows(After(l, Fresh(c.start), Events(c, n)), When(c, n), MarkAt(c, n))
  {
    if n == 0 {
      OneMore(c.days, c.d);
    } else {
      ScriptShows(l, c, n - 1);
      ScriptStep(l, After(l, Fresh(c.start), Events(c, n - 1)), c, n - 1);
      EventsAfter(l, Fresh(c.start), c, n);
    }
  }

  lemma {:induction false} ScriptOutstanding(l: Limits, c: Script, n: nat)
    requires Fits(l, c) && n <= 2 * c.f + 2 * c.k
    ensures AtMostOutstanding(l, Fresh(c.start), Events(c, n), c.k)
  {
    ScriptShows(l, c, n);
    var m := MarkAt(c, n);
    assert m.hi - m.lo <= c.k;
    if n > 0 {
      ScriptOutstanding(l, c, n - 1);
      EventsAfter(l, Fresh(c.start), c, n);
    }
  }

  lemma ScriptInOrder(l: Limits, c: Script, n: nat)
    requires Fits(l, c)
    ensures InOrder(c.start, Events(c, n))
  {
    var es := Events(c, n);
    if n > 0 {
      WhenMonotone(l, c, 0, 0);
    }
    forall i, j | 0 <= i < j < n ensures NotBefore(es[j].at, es[i].at) {
      WhenMonotone(l, c, i, j);
    }
  }

  lemma ScriptTotal(l: Limits, c: Script)
    requires Fits(l, c)
    ensures var rows := After(l, Fresh(c.start), Events(c, 2 * c.f + 2 * c.k)).rows;
            && AllAsChecked(rows)
            && SumOn(rows, Month, When(c, 2 * c.f + 2 * c.k)) == c.f + c.k * c.e
            && SumOn(rows, Day, When(c, 2 * c.f + 2 * c.k)) == LastDay(c) + c.k * c.e
  {
    ScriptShows(l, c, 2 * c.f + 2 * c.k);
    LastMark(l, c);
  }

  lemma LastMark(l: Limits, c: Script)
    requires Fits(l, c)
    ensures MarkAt(c, 2 * c.f + 2 * c.k) == Mark(c.f + c.k * c.e, LastDay(c) + c.k * c.e, c.k, c.k, c.e)
  {
    TimesIs(c.k, c.e);
    assert 2 * c.f + 2 * c.k - 2 * c.f - c.k == c.k;
  }

  /** The script that reaches the bound: within one day, or over 28 days of a month. */
  function Reaching(l: Limits, p: Period, k: nat, at: Instant): Script
    requires Cap(l, p).Some?
  {
    var e, cap := PerSend(l, p), Cap(l, p).value;
    var d := if l.maxDailySend.Some? then l.maxDailySend.value else cap;
    Script(StartOf(p, at), d, if p == Day then 0 else 27, cap - e, k, e)
  }

  lemma ReachingFits(l: Limits, p: Period, k: nat, at: Instant)
    requires Cap(l, p).Some? && k >= 1 && PerSend(l, p) >= 1
    requires Cap(l, Other(p)).Some? ==>
               if p == Day then l.maxDailySend.value <= l.maxMonthlySpend.value
               else l.maxMonthlySpend.value <= 28 * l.maxDailySend.value
    ensures Fits(l, Reaching(l, p, k, at))
  {
  }

  /** It ends in its period, and the day holds all of it when it takes one day. */
  lemma ReachingEnds(l: Limits, p: Period, k: nat, at: Instant)
    requires Cap(l, p).Some? && PerSend(l, p) >= 1 && Fits(l, Reaching(l, p, k, at))
    ensures var c := Reaching(l, p, k, at);
            && StartOf(p, When(c, 2 * c.f + 2 * c.k)) == StartOf(p, at)
            && (p == Day ==> LastDay(c) == c.f)
  {
  }

  /** A run from an empty table with at most k sends out, each recorded as checked, after
      which the period of end holds the limit plus k - 1 sends. */
  ghost predicate Reaches(l: Limits, p: Period, k: nat, start: Instant, es: seq<Event>, end: Instant)
    requires Cap(l, p).Some? && k >= 1
  {
    && InOrder(start, es) && AtMostOutstanding(l, Fresh(start), es, k)
    && AllAsChecked(After(l, Fresh(start), es).rows)
    && SumOn(After(l, Fresh(start), es).rows, p, end) == Bound(l, p, k)
  }

  lemma ScriptReaches(l: Limits, p: Period, c: Script)
    requires Fits(l, c) && Cap(l, p).Some? && c.e == PerSend(l, p) && c.f == Cap(l, p).value - c.e
    requires p == Day ==> LastDay(c) == c.f
    ensures var n := 2 * c.f + 2 * c.k; Reaches(l, p, c.k, c.start, Events(c, n), When(c, n))
  {
    var n := 2 * c.f + 2 * c.k;
    ScriptInOrder(l, c, n);
    ScriptOutstanding(l, c, n);
    ScriptTotal(l, c);
    OneMore(c.k - 1, c.e);
    assert p == Day || p == Month;
  }

  /** The bound is reached in either period for every single-send limit, when the monthly
      limit is at least one daily limit (for the day) and at most 28 (for the month): a
      run records all but one send of the limit, over the days of a month if it takes as
      many, and then prepares k sends together. */
  lemma OverlapReachesBound(l: Limits, p: Period, k: nat, at: Instant) returns (es: seq<Event>, end: Instant)
    requires Cap(l, p).Some? && k >= 1 && PerSend(l, p) >= 1
    requires Cap(l, Other(p)).Some? ==>
               if p == Day then l.maxDailySend.value <= l.maxMonthlySpend.value
               else l.maxMonthlySpend.value <= 28 * l.maxDailySend.value
    ensures StartOf(p, end) == StartOf(p, at) && Reaches(l, p, k, StartOf(p, at), es, end)
  {
    var c := Reaching(l, p, k, at);
    var n := 2 * c.f + 2 * k;
    es, end := Events(c, n), When(c, n);
    ReachingFits(l, p, k, at);
    ReachingEnds(l, p, k, at);
    ScriptReaches(l, p, c);
  }

  // ---- The service ----

  class KycSpendService {
    var limits: Option<Limits>
    var rows: seq<Spend>

    constructor (limits: Option<Limits>)
      ensures this.limits == limits && rows == []
    {
      this.limits := limits;
      rows := [];
    }

    /** A send is allowed exactly when there are limits, it is within the single one, and with
        it the units of this day and of this month stay within theirs; the refusals are in the
        order the service tries them. */
    method AssertKycSendAllowed(now: Instant, units: nat) returns (check: SpendCheck)
      requires forall i :: 0 <= i < |rows| ==> NotBefore(now, rows[i].at)
      ensures check == Check(limits, rows, now, units)
      ensures var today, month := SpentOnDay(rows, now.month, now.day), SpentInMonth(rows, now.month);
              if limits.None? then check == Refused(LevelMissing)
              else
                var l := limits.value;
                var single := l.maxSingleTx.Some? && l.maxSingleTx.value < units;
                var daily := l.maxDailySend.Some? && l.maxDailySend.value < today + units;
                var monthly := l.maxMonthlySpend.Some? && l.maxMonthlySpend.value < month + units;
                && (check == Refused(SingleExceeded) <==> single)
                && (check == Refused(DailyExceeded) <==> !single && daily)
                && (check == Refused(MonthlyExceeded) <==> !single && !daily && monthly)
                && (check == Allowed(today, month) <==> !single && !daily && !monthly)
    {
      SinceIsOn(rows, Day, now);
      SinceIsOn(rows, Month, now);
      SpentIs(rows, now);
      if limits.None? { return Refused(LevelMissing); }
      if Over(limits.value.maxSingleTx, units) { return Refused(SingleExceeded); }
      var spentToday := SumSince(rows, StartOf(Day, now));
      var spentMonth := SumSince(rows, StartOf(Month, now));
      if Over(limits.value.maxDailySend, spentToday + units) { return Refused(DailyExceeded); }
      if Over(limits.value.maxMonthlySpend, spentMonth + units) { return Refused(MonthlyExceeded); }
      return Allowed(spentToday, spentMonth);
    }

    /** One row more, which adds its units to its own day and month and to no other. */
    method RecordSpendEvent(now: Instant, units: nat, checked: nat)
      modifies this`rows
      ensures rows == old(rows) + [Spend(now, units, checked)]
      ensures forall m :: SpentInMonth(rows, m) == SpentInMonth(old(rows), m) + if m == now.month then units else 0
      ensures forall m, d :: SpentOnDay(rows, m, d)
                          == SpentOnDay(old(rows), m, d) + if m == now.month && d == now.day then units else 0
    {
      rows := rows + [Spend(now, units, checked)];
      assert rows[..|rows| - 1] == old(rows);
    }
  }
}
