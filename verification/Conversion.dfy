/** conversionService.ts: which pairs convert, for how much, and what a holder can gain.
    Currency codes are upper case throughout, as the service makes them first. */
module Conversion {
  import opened Wrappers

  // ---- Which pairs convert ----

  datatype Verdict = Passed | TreasuryToTreasury | InvalidPair

  datatype Dispatch = FiatToUsd(fiat: string) | UsdToFiat(fiat: string) | Throws

  predicate IsUsdCode(code: string) {
    code == "USD" || code == "USDC"
  }

  /** null for a USD code. */
  function FiatLeg(code: string): Option<string> {
    if IsUsdCode(code) then None else Some(code)
  }

  /** The empty string counts as absent in a condition, but not for the ?? operator. */
  predicate Truthy(leg: Option<string>) {
    leg.Some? && leg.value != ""
  }

  function AssertAllowed(local: string, corridors: map<string, string>, from: string, to: string): Verdict {
    var fiatFrom, fiatTo := FiatLeg(from), FiatLeg(to);
    if Truthy(fiatFrom) && Truthy(fiatTo) then TreasuryToTreasury
    else if !Truthy(fiatFrom) && !Truthy(fiatTo) then InvalidPair
    else
      var leg := if fiatFrom.Some? then fiatFrom.value else fiatTo.value;
      if leg !in corridors then InvalidPair
      else if leg !in (if local == "ZAR" then {"ZAR"} else {local, "ZAR"}) then InvalidPair
      else Passed
  }

  function Dispatched(from: string, to: string): Dispatch {
    if !IsUsdCode(from) && IsUsdCode(to) then FiatToUsd(from)
    else if IsUsdCode(from) && !IsUsdCode(to) then UsdToFiat(to)
    else Throws
  }

  /** An empty code is let through next to a convertible currency, and only the last line
      of the dispatcher stops it. */
  lemma EmptyCodeSlipsThrough()
    ensures AssertAllowed("ZAR", map["ZAR" := "TTZA"], "ZAR", "") == Passed
    ensures Dispatched("ZAR", "") == Throws
  {
    assert FiatLeg("ZAR") == Some("ZAR") && FiatLeg("") == Some("");
    assert "ZAR" in map["ZAR" := "TTZA"];
  }

  /** After the check has passed, the dispatcher's last line is reached exactly when one
      of the two codes is empty. */
  lemma LastThrowIff(local: string, corridors: map<string, string>, from: string, to: string)
    requires AssertAllowed(local, corridors, from, to) == Passed
    ensures Dispatched(from, to).Throws? <==> from == "" || to == ""
  {
    if IsUsdCode(from) {
      assert Truthy(FiatLeg(to));
    } else if IsUsdCode(to) {
      assert Truthy(FiatLeg(from));
    }
  }

  /** A conversion is made exactly between USD and a corridor currency that is the
      wallet's own or the rand, and in the direction asked for. */
  lemma ConvertsIff(local: string, corridors: map<string, string>, from: string, to: string)
    ensures var usd := {"USD", "USDC"};
            && (AssertAllowed(local, corridors, from, to) == Passed && !Dispatched(from, to).Throws?
                <==> (from in usd <==> to !in usd)
                     && var fiat := if to in usd then from else to;
                        fiat != "" && fiat in corridors && (fiat == local || fiat == "ZAR"))
            && Dispatched(from, to) == (if from !in usd && to in usd then FiatToUsd(from)
                                        else if from in usd && to !in usd then UsdToFiat(to)
                                        else Throws)
  {
    if IsUsdCode(from) {
      assert !IsUsdCode(to) && to != "" ==> Truthy(FiatLeg(to));
    } else if IsUsdCode(to) {
      assert from != "" ==> Truthy(FiatLeg(from));
    }
  }

  // ---- Amounts ----

  /** One unit of a fiat currency is a hundredth, one of USDC a millionth. */
  const FIAT_SCALE: real := 100.0
  const USDC_SCALE: real := 1000000.0

  /** What the spread leaves; below zero for a spread above one. */
  function Kept(spreadBps: nat): real {
    1.0 - spreadBps as real / 10000.0
  }

  function UsdcFor(fiatUnits: nat, rate: real, spreadBps: nat): int {
    (fiatUnits as real / FIAT_SCALE * rate * Kept(spreadBps) * USDC_SCALE).Floor
  }

  function FiatFor(usdcUnits: nat, rate: real, spreadBps: nat): int {
    (usdcUnits as real / USDC_SCALE * rate * Kept(spreadBps) * FIAT_SCALE).Floor
  }

  // ---- A holder's conversions at fixed rates ----

  /** Both rates of one corridor. */
  datatype Quote = Quote(toUsd: real, fromUsd: real)

  datatype Holder = Holder(usdc: nat, fiat: seq<nat>)

  datatype Order =
    | ToUsd(corridor: nat, units: nat, spreadBps: nat, reserve: nat)
    | FromUsd(corridor: nat, units: nat, spreadBps: nat)

  predicate Positive(quotes: seq<Quote>) {
    forall i :: 0 <= i < |quotes| ==> quotes[i].toUsd > 0.0 && quotes[i].fromUsd > 0.0
  }

  /** No round trip at the bare rates gains. */
  predicate NoArbitrage(quotes: seq<Quote>) {
    forall i :: 0 <= i < |quotes| ==> quotes[i].toUsd * quotes[i].fromUsd <= 1.0
  }

  /** The credited units; None when the service refuses. */
  function Credited(quotes: seq<Quote>, h: Holder, o: Order): Option<nat>
    requires |h.fiat| == |quotes|
  {
    if o.corridor >= |quotes| || o.units == 0 then None
    else
      match o
      case ToUsd(c, units, bps, reserve) =>
        var out := UsdcFor(units, quotes[c].toUsd, bps);
        if h.fiat[c] < units || out <= 0 || reserve < out then None else Some(out)
      case FromUsd(c, units, bps) =>
        var out := FiatFor(units, quotes[c].fromUsd, bps);
        if h.usdc < units || out <= 0 then None else Some(out)
  }

  function Convert(quotes: seq<Quote>, h: Holder, o: Order): (r: Holder)
    requires |h.fiat| == |quotes|
    ensures |r.fiat| == |quotes|
  {
    var out := Credited(quotes, h, o);
    if out.None? then h
    else
      match o
      case ToUsd(c, units, _, _) => Holder(h.usdc + out.value, h.fiat[c := h.fiat[c] - units])
      case FromUsd(c, units, _) => Holder(h.usdc - units, h.fiat[c := h.fiat[c] + out.value])
  }

  function ConvertAll(quotes: seq<Quote>, h: Holder, orders: seq<Order>): (r: Holder)
    requires |h.fiat| == |quotes|
    ensures |r.fiat| == |quotes|
  {
    if orders == [] then h else Convert(quotes, ConvertAll(quotes, h, orders[..|orders| - 1]), orders[|orders| - 1])
  }

  /** In USD, at the rates that sell fiat. */
  function FiatValue(quotes: seq<Quote>, fiat: seq<nat>): real
    requires |fiat| == |quotes|
  {
    if fiat == [] then 0.0
    else
      var n := |fiat| - 1;
      FiatValue(quotes[..n], fiat[..n]) + fiat[n] as real / FIAT_SCALE * quotes[n].toUsd
  }

  function Value(quotes: seq<Quote>, h: Holder): real
    requires |h.fiat| == |quotes|
  {
    h.usdc as real / USDC_SCALE + FiatValue(quotes, h.fiat)
  }

  /** The spread on the amount converted, in USD; nothing for a refused order. */
  function SpreadCost(quotes: seq<Quote>, h: Holder, o: Order): real
    requires |h.fiat| == |quotes|
  {
    if Credited(quotes, h, o).None? then 0.0
    else
      match o
      case ToUsd(c, units, bps, _) => units as real / FIAT_SCALE * quotes[c].toUsd * (bps as real / 10000.0)
      case FromUsd(c, units, bps) => units as real / USDC_SCALE * (bps as real / 10000.0)
  }

  function TotalCost(quotes: seq<Quote>, h: Holder, orders: seq<Order>): real
    requires |h.fiat| == |quotes|
  {
    if orders == [] then 0.0
    else
      var init := orders[..|orders| - 1];
      TotalCost(quotes, h, init) + SpreadCost(quotes, ConvertAll(quotes, h, init), orders[|orders| - 1])
  }

  // ---- Proof ----

  lemma {:induction false} FiatValueUpdate(quotes: seq<Quote>, fiat: seq<nat>, c: nat, units: nat)
    requires |fiat| == |quotes| && c < |fiat|
    ensures FiatValue(quotes, fiat[c := units])
         == FiatValue(quotes, fiat) + (units as real - fiat[c] as real) / FIAT_SCALE * quotes[c].toUsd
  {
    var n := |fiat| - 1;
    if c == n {
      assert fiat[c := units][..n] == fiat[..n];
    } else {
      FiatValueUpdate(quotes[..n], fiat[..n], c, units);
      assert fiat[c := units][..n] == fiat[..n][c := units];
    }
  }

  lemma FloorBelow(x: real)
    ensures x.Floor as real <= x < x.Floor as real + 1.0
  {
  }

  lemma FloorIs(x: real, n: int)
    ensures x.Floor == n <==> n as real <= x < n as real + 1.0
  {
  }

  /** Selling fiat pays at most its value less the spread, and less than one unit below that. */
  lemma UsdcForIsFair(units: nat, rate: real, bps: nat)
    ensures var net := units as real / 100.0 * rate * (1.0 - bps as real / 10000.0);
            UsdcFor(units, rate, bps) as real / 1000000.0 <= net
            && net < (UsdcFor(units, rate, bps) + 1) as real / 1000000.0
  {
    FloorBelow(units as real / FIAT_SCALE * rate * Kept(bps) * USDC_SCALE);
  }

  lemma FiatForIsFair(units: nat, rate: real, bps: nat)
    ensures var net := units as real / 1000000.0 * rate * (1.0 - bps as real / 10000.0);
            FiatFor(units, rate, bps) as real / 100.0 <= net
            && net < (FiatFor(units, rate, bps) + 1) as real / 100.0
  {
    FloorBelow(units as real / USDC_SCALE * rate * Kept(bps) * FIAT_SCALE);
  }

  /** Scaling an inequality and a chain of three factors, spelled out for the solver. */
  lemma BoughtValue(got: real, usd: real, fromUsd: real, toUsd: real, kept: real)
    requires 0.0 < got <= usd * fromUsd * kept
    requires usd > 0.0 && fromUsd > 0.0 && toUsd > 0.0 && fromUsd * toUsd <= 1.0
    ensures got * toUsd <= usd * kept
  {
    var gain := usd * fromUsd;
    assert gain > 0.0;
    assert kept > 0.0 by { assert kept <= 0.0 ==> gain * kept <= 0.0; }
    assert got * toUsd <= gain * kept * toUsd;
    assert gain * kept * toUsd == (usd * kept) * (fromUsd * toUsd);
    assert usd * kept > 0.0;
    assert (usd * kept) * (fromUsd * toUsd) <= (usd * kept) * 1.0;
  }

  lemma ToUsdLoses(quotes: seq<Quote>, h: Holder, o: Order)
    requires |h.fiat| == |quotes| && o.ToUsd? && Credited(quotes, h, o).Some?
    ensures Value(quotes, Convert(quotes, h, o)) + SpreadCost(quotes, h, o) <= Value(quotes, h)
  {
    var c, units, bps := o.corridor, o.units, o.spreadBps;
    var rate := quotes[c].toUsd;
    UsdcForIsFair(units, rate, bps);
    FiatValueUpdate(quotes, h.fiat, c, h.fiat[c] - units);
    var sold := units as real / FIAT_SCALE * rate;
    assert sold * Kept(bps) == sold - sold * (bps as real / 10000.0);
  }

  lemma FromUsdLoses(quotes: seq<Quote>, h: Holder, o: Order)
    requires |h.fiat| == |quotes| && Positive(quotes) && NoArbitrage(quotes)
    requires o.FromUsd? && Credited(quotes, h, o).Some?
    ensures Value(quotes, Convert(quotes, h, o)) + SpreadCost(quotes, h, o) <= Value(quotes, h)
  {
    var c, units, bps := o.corridor, o.units, o.spreadBps;
    var q, out := quotes[c], Credited(quotes, h, o).value;
    FiatForIsFair(units, q.fromUsd, bps);
    FiatValueUpdate(quotes, h.fiat, c, h.fiat[c] + out);
    var usd, got := units as real / USDC_SCALE, out as real / FIAT_SCALE;
    assert q.fromUsd * q.toUsd == q.toUsd * q.fromUsd;
    BoughtValue(got, usd, q.fromUsd, q.toUsd, Kept(bps));
    assert usd * Kept(bps) == usd - usd * (bps as real / 10000.0);
  }

  // ---- One order, in the units of the two tokens ----

  /** Fiat is sold exactly when the holder has it and the reserve covers the USDC paid, at
      least one unit; that is the value less the spread, rounded down. */
  lemma SoldFor(quotes: seq<Quote>, h: Holder, c: nat, units: nat, bps: nat, reserve: nat, out: nat)
    requires |h.fiat| == |quotes| && c < |quotes|
    ensures var o := ToUsd(c, units, bps, reserve);
            && (Credited(quotes, h, o) == Some(out)
                <==> 0 < units <= h.fiat[c] && 0 < out <= reserve
                     && out as real
                        <= units as real / 100.0 * quotes[c].toUsd * (1.0 - bps as real / 10000.0) * 1000000.0
                        < out as real + 1.0)
            && (Credited(quotes, h, o) == Some(out) ==>
                  Convert(quotes, h, o) == Holder(h.usdc + out, h.fiat[c := h.fiat[c] - units]))
            && (Credited(quotes, h, o) == None ==> Convert(quotes, h, o) == h)
  {
    FloorIs(units as real / FIAT_SCALE * quotes[c].toUsd * Kept(bps) * USDC_SCALE, out);
  }

  /** Fiat is bought exactly when the holder has the USDC and gets at least one unit. */
  lemma BoughtFor(quotes: seq<Quote>, h: Holder, c: nat, units: nat, bps: nat, out: nat)
    requires |h.fiat| == |quotes| && c < |quotes|
    ensures var o := FromUsd(c, units, bps);
            && (Credited(quotes, h, o) == Some(out)
                <==> 0 < units <= h.usdc && 0 < out
                     && out as real
                        <= units as real / 1000000.0 * quotes[c].fromUsd * (1.0 - bps as real / 10000.0) * 100.0
                        < out as real + 1.0)
            && (Credited(quotes, h, o) == Some(out) ==>
                  Convert(quotes, h, o) == Holder(h.usdc - units, h.fiat[c := h.fiat[c] + out]))
            && (Credited(quotes, h, o) == None ==> Convert(quotes, h, o) == h)
  {
    FloorIs(units as real / USDC_SCALE * quotes[c].fromUsd * Kept(bps) * FIAT_SCALE, out);
  }

  /** What one order costs: the spread on the amount converted, in USD. */
  lemma SpreadCostIs(quotes: seq<Quote>, h: Holder, o: Order)
    requires |h.fiat| == |quotes|
    ensures Credited(quotes, h, o).None? ==> SpreadCost(quotes, h, o) == 0.0
    ensures Credited(quotes, h, o).Some? && o.ToUsd? ==>
              SpreadCost(quotes, h, o)
              == o.units as real / 100.0 * quotes[o.corridor].toUsd * (o.spreadBps as real / 10000.0)
    ensures Credited(quotes, h, o).Some? && o.FromUsd? ==>
              SpreadCost(quotes, h, o) == o.units as real / 1000000.0 * (o.spreadBps as real / 10000.0)
  {
  }

  /** Orders are carried out and paid for one after the other. */
  lemma OneMore(quotes: seq<Quote>, h: Holder, orders: seq<Order>, o: Order)
    requires |h.fiat| == |quotes|
    ensures ConvertAll(quotes, h, orders + [o]) == Convert(quotes, ConvertAll(quotes, h, orders), o)
    ensures TotalCost(quotes, h, orders + [o])
         == TotalCost(quotes, h, orders) + SpreadCost(quotes, ConvertAll(quotes, h, orders), o)
  {
    assert (orders + [o])[..|orders|] == orders;
  }

  /** However a holder converts back and forth between USD and any corridors, the value
      held never rises, and it falls by at least the spread on everything converted. */
  lemma {:induction false} NoGainConversions(quotes: seq<Quote>, h: Holder, orders: seq<Order>)
    requires |h.fiat| == |quotes| && Positive(quotes) && NoArbitrage(quotes)
    ensures Value(quotes, ConvertAll(quotes, h, orders)) + TotalCost(quotes, h, orders) <= Value(quotes, h)
    ensures TotalCost(quotes, h, orders) >= 0.0
  {
    if orders != [] {
      var init, last := orders[..|orders| - 1], orders[|orders| - 1];
      NoGainConversions(quotes, h, init);
      var g := ConvertAll(quotes, h, init);
      if Credited(quotes, g, last).Some? {
        CostNonNegative(quotes, g, last);
        if last.ToUsd? {
          ToUsdLoses(quotes, g, last);
        } else {
          FromUsdLoses(quotes, g, last);
        }
      }
    }
  }

  lemma ProductNonNegative(a: real, b: real)
    requires a >= 0.0 && b >= 0.0
    ensures a * b >= 0.0
  {
  }

  lemma CostNonNegative(quotes: seq<Quote>, h: Holder, o: Order)
    requires |h.fiat| == |quotes| && Positive(quotes) && Credited(quotes, h, o).Some?
    ensures SpreadCost(quotes, h, o) >= 0.0
  {
    var amount := if o.ToUsd? then o.units as real / FIAT_SCALE * quotes[o.corridor].toUsd
                  else o.units as real / USDC_SCALE;
    var spread := o.spreadBps as real / 10000.0;
    assert amount >= 0.0 && spread >= 0.0;
    ProductNonNegative(amount, spread);
  }

  /** Above product one a large enough round trip does gain: the condition cannot be dropped. */
  lemma ArbitrageGains()
    ensures var quotes, h := [Quote(0.1, 11.0)], Holder(10000000, [0]);
            Value(quotes, ConvertAll(quotes, h, [FromUsd(0, 10000000, 0)])) > Value(quotes, h)
  {
    var quotes, h, o := [Quote(0.1, 11.0)], Holder(10000000, [0]), FromUsd(0, 10000000, 0);
    assert [o][..0] == [];
    assert FiatFor(10000000, 11.0, 0) == 11000;
    assert Convert(quotes, h, o) == Holder(0, [11000]);
    assert quotes[..0] == [];
  }
}
