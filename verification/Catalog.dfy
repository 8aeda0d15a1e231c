/** productCatalogService.ts: a merchant's products against an external feed. The products
    table is a sequence, a row's position standing for its product id; the columns that
    only hold timestamps are not kept. */
module Catalog {
  import opened Wrappers

  // ---- Prices of a feed item ----

  /** toMinorUnits: to the nearest cent, a half rounding up. */
  function Minor(major: real): int {
    (major * 100.0 + 0.5).Floor
  }

  /** The six amounts a feed item may carry, absent unless a positive number. */
  datatype Amounts = Amounts(
    supplierFixed: Option<real>, baseFixed: Option<real>,
    supplierMin: Option<real>, baseMin: Option<real>, supplierMax: Option<real>, baseMax: Option<real>)

  datatype Price = Price(isFixed: bool, price: Option<int>, min: Option<int>, max: Option<int>)

  function Else<T>(a: Option<T>, b: Option<T>): Option<T> {
    if a.Some? then a else b
  }

  function MapPrice(a: Amounts): Option<Price> {
    var min, max := Else(a.supplierMin, a.baseMin), Else(a.supplierMax, a.baseMax);
    var fixed := Else(a.supplierFixed, a.baseFixed);
    if a.supplierFixed.Some? then Some(Fixed(Minor(a.supplierFixed.value)))
    else if min.Some? && max.Some? then Some(Price(false, None, Some(Minor(min.value)), Some(Minor(max.value))))
    else if fixed.Some? then Some(Fixed(Minor(fixed.value)))
    else None
  }

  function Fixed(units: int): Price {
    Price(true, Some(units), Some(units), Some(units))
  }

  /** A price in cents, to the nearest and a half upwards. */
  lemma MinorIs(major: real)
    ensures major * 100.0 - 0.5 < Minor(major) as real <= major * 100.0 + 0.5
  {
  }

  /** Which of its amounts an item is priced by: the supplier's fixed price before anything; then
      a range, each end the supplier's if there is one and the base one if not; then the base
      fixed price. */
  lemma PricedBy(a: Amounts)
    ensures MapPrice(a) ==
            if a.supplierFixed.Some? then
              var x := Some(Minor(a.supplierFixed.value)); Some(Price(true, x, x, x))
            else if (a.supplierMin.Some? || a.baseMin.Some?) && (a.supplierMax.Some? || a.baseMax.Some?) then
              var min := if a.supplierMin.Some? then a.supplierMin.value else a.baseMin.value;
              var max := if a.supplierMax.Some? then a.supplierMax.value else a.baseMax.value;
              Some(Price(false, None, Some(Minor(min)), Some(Minor(max))))
            else if a.baseFixed.Some? then
              var x := Some(Minor(a.baseFixed.value)); Some(Price(true, x, x, x))
            else None
  {
  }

  // ---- The table ----

  datatype Source = Manual | Api

  datatype Details = Details(name: string, description: Option<string>, deliveryType: string, country: string,
                             currency: string, price: Price, category: Option<string>, brand: Option<string>,
                             barcode: Option<string>, supplierCode: Option<string>)

  datatype Product = Product(merchant: nat, externalId: Option<string>, source: Source, details: Details,
                             fulfilmentUrl: Option<string>, active: bool)

  /** One item of the feed after mapping. */
  datatype Mapped = Mapped(externalId: string, details: Details, active: bool)

  predicate Writable(p: Mapped) {
    var price := p.details.price;
    (price.min.Some? && price.max.Some?) || (price.isFixed && price.price.Some?)
  }

  predicate Has(row: Product, m: nat, x: string) {
    row.merchant == m && row.externalId == Some(x)
  }

  /** The first row of the merchant with an external id, or the length of the table. */
  function Find(table: seq<Product>, m: nat, x: string): (i: nat)
    ensures i <= |table|
    ensures i < |table| ==> Has(table[i], m, x)
    ensures forall j :: 0 <= j < i ==> !Has(table[j], m, x)
  {
    if table == [] then 0
    else
      var i := Find(table[..|table| - 1], m, x);
      if i < |table| - 1 || Has(table[|table| - 1], m, x) then i else |table|
  }

  /** The look-up has no order and external ids need not be unique, so the database may
      return any row of the merchant with the id: the hinted one if it is such a row. */
  function LookUp(table: seq<Product>, m: nat, x: string, hint: nat): (i: nat)
    ensures i <= |table|
    ensures i < |table| ==> Has(table[i], m, x)
    ensures i == |table| ==> forall j :: 0 <= j < |table| ==> !Has(table[j], m, x)
    ensures hint < |table| && Has(table[hint], m, x) ==> i == hint
  {
    if hint < |table| && Has(table[hint], m, x) then hint else Find(table, m, x)
  }

  /** The row the database prefers for the n-th item of a feed. */
  function Hint(hints: seq<nat>, n: nat): nat {
    if n < |hints| then hints[n] else 0
  }

  function Written(row: Product, p: Mapped, url: string): Product {
    Product(row.merchant, row.externalId, Api, p.details,
            Some(if row.fulfilmentUrl.Some? then row.fulfilmentUrl.value else url), p.active)
  }

  function Inserted(m: nat, p: Mapped, url: string): Product {
    Product(m, Some(p.externalId), Api, p.details, Some(url), p.active)
  }

  predicate Skipped(table: seq<Product>, m: nat, p: Mapped, hint: nat) {
    !Writable(p) || (var i := LookUp(table, m, p.externalId, hint); i < |table| && table[i].source == Manual)
  }

  function Upsert(table: seq<Product>, m: nat, p: Mapped, url: string, hint: nat): seq<Product> {
    var i := LookUp(table, m, p.externalId, hint);
    if Skipped(table, m, p, hint) then table
    else if i < |table| then table[i := Written(table[i], p, url)]
    else table + [Inserted(m, p, url)]
  }

  function Upserts(table: seq<Product>, m: nat, feed: seq<Mapped>, url: string, hints: seq<nat>): seq<Product> {
    if feed == [] then table
    else
      var n := |feed| - 1;
      Upsert(Upserts(table, m, feed[..n], url, hints), m, feed[n], url, Hint(hints, n))
  }

  predicate Seen(feed: seq<Mapped>, x: string) {
    exists i :: 0 <= i < |feed| && feed[i].externalId == x
  }

  predicate Missing(row: Product, m: nat, feed: seq<Mapped>) {
    row.merchant == m && row.source == Api && row.active && (row.externalId.None? || !Seen(feed, row.externalId.value))
  }

  function Retired(row: Product, m: nat, feed: seq<Mapped>): Product {
    if Missing(row, m, feed) then row.(active := false) else row
  }

  function Deactivate(table: seq<Product>, m: nat, feed: seq<Mapped>): (r: seq<Product>)
    ensures |r| == |table|
  {
    if feed == [] then table else seq(|table|, i requires 0 <= i < |table| => Retired(table[i], m, feed))
  }

  function Sync(table: seq<Product>, m: nat, feed: seq<Mapped>, url: string, hints: seq<nat>): seq<Product> {
    Deactivate(Upserts(table, m, feed, url, hints), m, feed)
  }

  /** Items left out, counted against the table as it was before the sync. */
  function SkippedCount(table: seq<Product>, m: nat, feed: seq<Mapped>, hints: seq<nat>): (n: nat)
    ensures n <= |feed|
  {
    if feed == [] then 0
    else
      var n := |feed| - 1;
      SkippedCount(table, m, feed[..n], hints) + if Skipped(table, m, feed[n], Hint(hints, n)) then 1 else 0
  }

  function MissingCount(table: seq<Product>, m: nat, feed: seq<Mapped>): nat {
    if table == [] then 0
    else MissingCount(table[..|table| - 1], m, feed) + if Missing(table[|table| - 1], m, feed) then 1 else 0
  }

  // ---- The merge the loop amounts to ----

  /** The last writable item of the feed with an external id. */
  function Last(feed: seq<Mapped>, x: string): Option<Mapped> {
    if feed == [] then None
    else
      var p := feed[|feed| - 1];
      if p.externalId == x && Writable(p) then Some(p) else Last(feed[..|feed| - 1], x)
  }

  /** The last writable item of the feed whose look-up returned row i. */
  function LastFor(table: seq<Product>, m: nat, feed: seq<Mapped>, hints: seq<nat>, i: nat): Option<Mapped>
    requires i < |table|
  {
    if feed == [] then None
    else
      var n := |feed| - 1;
      if Writable(feed[n]) && LookUp(table, m, feed[n].externalId, Hint(hints, n)) == i then Some(feed[n])
      else LastFor(table, m, feed[..n], hints, i)
  }

  /** An API row takes the last item that was looked up to it. */
  function Merged(table: seq<Product>, m: nat, feed: seq<Mapped>, url: string, hints: seq<nat>, i: nat): Product
    requires i < |table|
  {
    var last := LastFor(table, m, feed, hints, i);
    if table[i].source == Api && last.Some? then Written(table[i], last.value, url) else table[i]
  }

  /** A row the merge adds: its id was absent and it is the last item with that id. */
  ghost predicate NewRow(row: Product, table: seq<Product>, m: nat, feed: seq<Mapped>, url: string) {
    && row.externalId.Some?
    && Find(table, m, row.externalId.value) == |table|
    && Last(feed, row.externalId.value).Some?
    && row == Inserted(m, Last(feed, row.externalId.value).value, url)
  }

  /** No other row of the merchant has the id of row i. */
  ghost predicate Alone(table: seq<Product>, m: nat, i: nat)
    requires i < |table|
  {
    forall j :: 0 <= j < |table| && table[j].merchant == m && table[j].externalId == table[i].externalId ==> j == i
  }

  ghost predicate IsMerge(table: seq<Product>, m: nat, feed: seq<Mapped>, url: string, hints: seq<nat>,
                          result: seq<Product>) {
    && |table| <= |result|
    && (forall i :: 0 <= i < |table| ==> result[i] == Merged(table, m, feed, url, hints, i))
    && (forall i :: |table| <= i < |result| ==> NewRow(result[i], table, m, feed, url) && Alone(result, m, i))
    && (forall x :: Last(feed, x).Some? ==> Find(result, m, x) < |result|)
  }

  // ---- Proof ----

  predicate SameKey(a: Product, b: Product) {
    a.merchant == b.merchant && a.externalId == b.externalId && a.source == b.source
  }

  /** Rows at the same places with the same ids, and perhaps more behind them. */
  ghost predicate Extends(a: seq<Product>, b: seq<Product>) {
    |a| <= |b| && forall i :: 0 <= i < |a| ==> SameKey(a[i], b[i])
  }

  /** An id that is there is looked up to the same row after rows have been written in
      place or added. */
  lemma SameIds(a: seq<Product>, b: seq<Product>, m: nat, x: string)
    requires Extends(a, b)
    ensures Find(a, m, x) < |a| ==> Find(b, m, x) == Find(a, m, x)
    ensures |a| == |b| ==> Find(b, m, x) == Find(a, m, x)
  {
    var i, j := Find(a, m, x), Find(b, m, x);
    assert i < |a| ==> SameKey(a[i], b[i]);
    assert j < |a| ==> SameKey(a[j], b[j]);
  }

  /** The row added for an id is the only one with it. */
  lemma NewRowFound(table: seq<Product>, m: nat, feed: seq<Mapped>, url: string, hints: seq<nat>, cur: seq<Product>,
                    i: nat, x: string)
    requires IsMerge(table, m, feed, url, hints, cur) && |table| <= i < |cur| && Has(cur[i], m, x)
    ensures Find(table, m, x) == |table|
    ensures forall hint :: LookUp(cur, m, x, hint) == i
  {
    assert NewRow(cur[i], table, m, feed, url) && Alone(cur, m, i);
  }

  lemma MergeExtends(table: seq<Product>, m: nat, feed: seq<Mapped>, url: string, hints: seq<nat>, cur: seq<Product>)
    requires IsMerge(table, m, feed, url, hints, cur)
    ensures Extends(table, cur)
  {
    forall i | 0 <= i < |table| ensures SameKey(table[i], cur[i]) {
      assert cur[i] == Merged(table, m, feed, url, hints, i);
    }
  }

  /** Look-ups during the loop are look-ups in the table as it was, for the ids it has. */
  lemma LookUpKept(table: seq<Product>, cur: seq<Product>, m: nat, x: string, hint: nat)
    requires Extends(table, cur)
    requires forall i :: |table| <= i < |cur| ==>
               cur[i].externalId.Some? && Find(table, m, cur[i].externalId.value) == |table|
    ensures Find(table, m, x) < |table| ==> LookUp(cur, m, x, hint) == LookUp(table, m, x, hint)
    ensures Find(table, m, x) == |table| ==> LookUp(cur, m, x, hint) >= |table|
  {
    SameIds(table, cur, m, x);
    var j := LookUp(cur, m, x, hint);
    assert j < |table| ==> SameKey(table[j], cur[j]);
    assert hint < |table| ==> SameKey(table[hint], cur[hint]);
  }

  lemma {:induction false} LastForSnoc(table: seq<Product>, m: nat, feed: seq<Mapped>, hints: seq<nat>, p: Mapped,
                                       i: nat)
    requires i < |table|
    ensures LastFor(table, m, feed + [p], hints, i)
         == if Writable(p) && LookUp(table, m, p.externalId, Hint(hints, |feed|)) == i then Some(p)
            else LastFor(table, m, feed, hints, i)
  {
    assert (feed + [p])[..|feed|] == feed;
  }

  lemma {:induction false} LastSnoc(feed: seq<Mapped>, p: Mapped, x: string)
    ensures Last(feed + [p], x) == if p.externalId == x && Writable(p) then Some(p) else Last(feed, x)
  {
    assert (feed + [p])[..|feed|] == feed;
  }

  /** One item: an old row ends as the merge has it. */
  lemma OldRow(table: seq<Product>, m: nat, feed: seq<Mapped>, url: string, hints: seq<nat>, cur: seq<Product>,
               p: Mapped, i: nat)
    requires IsMerge(table, m, feed, url, hints, cur) && i < |table|
    ensures |table| <= |Upsert(cur, m, p, url, Hint(hints, |feed|))|
    ensures Upsert(cur, m, p, url, Hint(hints, |feed|))[i] == Merged(table, m, feed + [p], url, hints, i)
  {
    MergeExtends(table, m, feed, url, hints, cur);
    MergeLookUp(table, m, feed, url, hints, cur, p.externalId, Hint(hints, |feed|));
    LastForSnoc(table, m, feed, hints, p, i);
    assert cur[i] == Merged(table, m, feed, url, hints, i) && SameKey(table[i], cur[i]);
  }

  lemma MergeLookUp(table: seq<Product>, m: nat, feed: seq<Mapped>, url: string, hints: seq<nat>, cur: seq<Product>,
                    x: string, hint: nat)
    requires IsMerge(table, m, feed, url, hints, cur)
    ensures Find(table, m, x) < |table| ==> LookUp(cur, m, x, hint) == LookUp(table, m, x, hint)
    ensures Find(table, m, x) == |table| ==>
              LookUp(table, m, x, hint) == |table| && LookUp(cur, m, x, hint) >= |table|
  {
    MergeExtends(table, m, feed, url, hints, cur);
    forall i | |table| <= i < |cur|
      ensures cur[i].externalId.Some? && Find(table, m, cur[i].externalId.value) == |table| {
      assert NewRow(cur[i], table, m, feed, url);
    }
    LookUpKept(table, cur, m, x, hint);
  }

  /** One item: the added rows stay what the merge adds, one for each id. */
  lemma AddedRow(table: seq<Product>, m: nat, feed: seq<Mapped>, url: string, hints: seq<nat>, cur: seq<Product>,
                 p: Mapped, i: nat)
    requires IsMerge(table, m, feed, url, hints, cur)
    requires |table| <= i < |Upsert(cur, m, p, url, Hint(hints, |feed|))|
    ensures var next := Upsert(cur, m, p, url, Hint(hints, |feed|));
            NewRow(next[i], table, m, feed + [p], url) && Alone(next, m, i)
  {
    var x, hint := p.externalId, Hint(hints, |feed|);
    var next := Upsert(cur, m, p, url, hint);
    MergeLookUp(table, m, feed, url, hints, cur, x, hint);
    if i < |cur| {
      assert NewRow(cur[i], table, m, feed, url) && Alone(cur, m, i);
      LastSnoc(feed, p, cur[i].externalId.value);
      if cur[i].externalId.value == x {
        NewRowFound(table, m, feed, url, hints, cur, i, x);
      }
    } else {
      LastSnoc(feed, p, x);
    }
  }

  lemma MergeStep(table: seq<Product>, m: nat, feed: seq<Mapped>, url: string, hints: seq<nat>, cur: seq<Product>,
                  p: Mapped)
    requires IsMerge(table, m, feed, url, hints, cur)
    ensures IsMerge(table, m, feed + [p], url, hints, Upsert(cur, m, p, url, Hint(hints, |feed|)))
  {
    var next := Upsert(cur, m, p, url, Hint(hints, |feed|));
    forall i | 0 <= i < |table| ensures next[i] == Merged(table, m, feed + [p], url, hints, i) {
      OldRow(table, m, feed, url, hints, cur, p, i);
    }
    forall i | |table| <= i < |next| ensures NewRow(next[i], table, m, feed + [p], url) && Alone(next, m, i) {
      AddedRow(table, m, feed, url, hints, cur, p, i);
    }
    forall x | Last(feed + [p], x).Some? ensures Find(next, m, x) < |next| {
      LastSnoc(feed, p, x);
      FoundAfter(cur, m, p, url, Hint(hints, |feed|), x);
    }
  }

  lemma FoundAfter(cur: seq<Product>, m: nat, p: Mapped, url: string, hint: nat, x: string)
    requires Find(cur, m, x) < |cur| || (p.externalId == x && Writable(p))
    ensures var next := Upsert(cur, m, p, url, hint); Find(next, m, x) < |next|
  {
    var next := Upsert(cur, m, p, url, hint);
    if Find(cur, m, x) < |cur| {
      SameIds(cur, next, m, x);
    } else {
      assert Has(next[|cur|], m, x);
    }
  }

  /** Item by item the loop builds the merge, for every table and whatever the look-ups
      return: each API row ends with the last item that was looked up to it, and each id
      that was absent gets one row, with the last item of that id. */
  lemma {:induction false} UpsertsMerge(table: seq<Product>, m: nat, feed: seq<Mapped>, url: string, hints: seq<nat>)
    ensures IsMerge(table, m, feed, url, hints, Upserts(table, m, feed, url, hints))
  {
    if feed != [] {
      var init, p := feed[..|feed| - 1], feed[|feed| - 1];
      UpsertsMerge(table, m, init, url, hints);
      assert feed == init + [p];
      MergeStep(table, m, init, url, hints, Upserts(table, m, init, url, hints), p);
    }
  }

  // ---- What a sync leaves ----

  /** Whatever the feed and whatever the ids: rows stay where they are with their owner and
      id, other merchants' rows and hand-edited rows stay as they are, and a link already
      set stays set. */
  lemma SyncKeeps(table: seq<Product>, m: nat, feed: seq<Mapped>, url: string, hints: seq<nat>, i: nat)
    requires i < |table|
    ensures var next := Sync(table, m, feed, url, hints);
            && |table| <= |next|
            && SameKey(table[i], next[i])
            && (table[i].merchant != m || table[i].source == Manual ==> next[i] == table[i])
            && (table[i].fulfilmentUrl.Some? ==> next[i].fulfilmentUrl == table[i].fulfilmentUrl)
  {
    UpsertsMerge(table, m, feed, url, hints);
    LastForIs(table, m, feed, hints, i);
  }

  /** After a feed that is not empty, an API product is active only if the feed names it. */
  lemma ActiveIsSeen(table: seq<Product>, m: nat, feed: seq<Mapped>, url: string, hints: seq<nat>, i: nat)
    requires feed != [] && i < |Sync(table, m, feed, url, hints)|
    ensures var row := Sync(table, m, feed, url, hints)[i];
            row.merchant == m && row.source == Api && row.active ==>
              row.externalId.Some? && Seen(feed, row.externalId.value)
  {
  }

  ghost predicate Unique(table: seq<Product>, m: nat) {
    forall i :: 0 <= i < |table| && table[i].merchant == m && table[i].externalId.Some? ==> Alone(table, m, i)
  }

  /** What every row is after a sync, for every table and whatever the look-ups return: the
      merge, with the products missing from the feed retired. */
  lemma SyncIsMerge(table: seq<Product>, m: nat, feed: seq<Mapped>, url: string, hints: seq<nat>)
    ensures var next := Sync(table, m, feed, url, hints);
            && |table| <= |next|
            && (forall i :: 0 <= i < |table| ==>
                  next[i] == var row := Merged(table, m, feed, url, hints, i);
                             if feed == [] then row else Retired(row, m, feed))
            && (forall i :: |table| <= i < |next| ==> NewRow(next[i], table, m, feed, url) && Alone(next, m, i))
            && (forall x :: Last(feed, x).Some? ==> Find(next, m, x) < |next|)
  {
    UpsertsMerge(table, m, feed, url, hints);
    var cur, next := Upserts(table, m, feed, url, hints), Sync(table, m, feed, url, hints);
    forall i | |table| <= i < |next| ensures NewRow(next[i], table, m, feed, url) && Alone(next, m, i) {
      assert NewRow(cur[i], table, m, feed, url) && Alone(cur, m, i);
      LastIsSeen(feed, cur[i].externalId.value);
      AloneKept(cur, next, m, i);
    }
    forall x | Last(feed, x).Some? ensures Find(next, m, x) < |next| {
      SameIds(cur, next, m, x);
    }
  }

  lemma AloneKept(a: seq<Product>, b: seq<Product>, m: nat, i: nat)
    requires |a| == |b| && Extends(a, b) && i < |a|
    ensures Alone(b, m, i) <==> Alone(a, m, i)
  {
    assert forall j :: 0 <= j < |a| ==> SameKey(a[j], b[j]);
  }

  /** The merge adds no second row for an id, so unique ids stay unique. */
  lemma SyncUnique(table: seq<Product>, m: nat, feed: seq<Mapped>, url: string, hints: seq<nat>)
    requires Unique(table, m)
    ensures Unique(Sync(table, m, feed, url, hints), m)
  {
    SyncIsMerge(table, m, feed, url, hints);
    var next := Sync(table, m, feed, url, hints);
    forall i | 0 <= i < |next| && next[i].merchant == m && next[i].externalId.Some? ensures Alone(next, m, i) {
      if i < |table| {
        OldAlone(table, m, feed, url, hints, i);
      }
    }
  }

  /** A row that was there has its id alone after the sync if it had it alone before. */
  lemma OldAlone(table: seq<Product>, m: nat, feed: seq<Mapped>, url: string, hints: seq<nat>, i: nat)
    requires i < |table| && table[i].merchant == m && table[i].externalId.Some?
    ensures |table| <= |Sync(table, m, feed, url, hints)|
    ensures Alone(Sync(table, m, feed, url, hints), m, i) <==> Alone(table, m, i)
  {
    SyncIsMerge(table, m, feed, url, hints);
    var next := Sync(table, m, feed, url, hints);
    forall j | 0 <= j < |next|
      ensures if j < |table| then SameKey(table[j], next[j]) else next[j].externalId != table[i].externalId {
      if j < |table| {
        SyncKeeps(table, m, feed, url, hints, j);
      } else {
        assert NewRow(next[j], table, m, feed, url);
      }
    }
    SyncKeeps(table, m, feed, url, hints, i);
    if Alone(next, m, i) {
      forall j | 0 <= j < |table| && table[j].merchant == m && table[j].externalId == table[i].externalId
        ensures j == i {
        assert SameKey(table[j], next[j]);
      }
    }
  }

  lemma {:induction false} LastIsSeen(feed: seq<Mapped>, x: string)
    requires Last(feed, x).Some?
    ensures Seen(feed, x) && Last(feed, x).value.externalId == x
  {
    var n := |feed| - 1;
    if feed[n].externalId == x && Writable(feed[n]) {
    } else {
      LastIsSeen(feed[..n], x);
      var i :| 0 <= i < n && feed[..n][i].externalId == x;
      assert feed[i].externalId == x;
    }
  }

  /** The item a row ends with is a writable one of the feed with the row's id. */
  lemma {:induction false} LastForIs(table: seq<Product>, m: nat, feed: seq<Mapped>, hints: seq<nat>, i: nat)
    requires i < |table|
    ensures var last := LastFor(table, m, feed, hints, i);
            last.Some? ==> Has(table[i], m, last.value.externalId)
                           && exists k :: 0 <= k < |feed| && feed[k] == last.value && Writable(feed[k])
  {
    if feed != [] {
      var n := |feed| - 1;
      LastForIs(table, m, feed[..n], hints, i);
      assert forall k :: 0 <= k < n ==> feed[..n][k] == feed[k];
    }
  }

  /** Equal keys, equal look-ups: the same item comes last. */
  lemma {:induction false} LastForKept(table: seq<Product>, next: seq<Product>, m: nat, feed: seq<Mapped>,
                                       hints: seq<nat>, i: nat)
    requires i < |table| <= |next|
    requires forall x, hint :: Find(table, m, x) < |table| ==> LookUp(next, m, x, hint) == LookUp(table, m, x, hint)
    requires forall x, hint :: Find(table, m, x) == |table| ==> LookUp(next, m, x, hint) >= |table|
    ensures LastFor(next, m, feed, hints, i) == LastFor(table, m, feed, hints, i)
  {
    if feed != [] {
      var n := |feed| - 1;
      LastForKept(table, next, m, feed[..n], hints, i);
      var x := feed[n].externalId;
      assert Find(table, m, x) == |table| ==> LookUp(table, m, x, Hint(hints, n)) == |table|;
    }
  }

  /** A row that has its id alone ends with the last item of that id, whatever the hints. */
  lemma {:induction false} LastForAlone(table: seq<Product>, m: nat, feed: seq<Mapped>, hints: seq<nat>, i: nat)
    requires i < |table| && table[i].merchant == m && table[i].externalId.Some? && Alone(table, m, i)
    ensures LastFor(table, m, feed, hints, i) == Last(feed, table[i].externalId.value)
  {
    if feed != [] {
      var n := |feed| - 1;
      LastForAlone(table, m, feed[..n], hints, i);
      var at := LookUp(table, m, feed[n].externalId, Hint(hints, n));
      assert Has(table[i], m, feed[n].externalId) ==> at == i;
    }
  }

  /** A row that has its id alone takes the last item of its id, hand-edited rows apart. */
  lemma LastWins(table: seq<Product>, m: nat, feed: seq<Mapped>, url: string, hints: seq<nat>, i: nat)
    requires i < |table| && table[i].merchant == m && table[i].externalId.Some? && Alone(table, m, i)
    ensures |table| <= |Upserts(table, m, feed, url, hints)|
    ensures var last := Last(feed, table[i].externalId.value);
            Upserts(table, m, feed, url, hints)[i]
            == if table[i].source == Api && last.Some? then Written(table[i], last.value, url) else table[i]
  {
    UpsertsMerge(table, m, feed, url, hints);
    LastForAlone(table, m, feed, hints, i);
  }

  // ---- A second sync ----

  lemma SyncLookUp(table: seq<Product>, m: nat, feed: seq<Mapped>, url: string, hints: seq<nat>, x: string, hint: nat)
    ensures var once := Sync(table, m, feed, url, hints);
            && |table| <= |once|
            && (Find(table, m, x) < |table| ==> LookUp(once, m, x, hint) == LookUp(table, m, x, hint))
            && (Find(table, m, x) == |table| ==> LookUp(once, m, x, hint) >= |table|)
  {
    SyncIsMerge(table, m, feed, url, hints);
    var once := Sync(table, m, feed, url, hints);
    forall i | 0 <= i < |table| ensures SameKey(table[i], once[i]) {
      SyncKeeps(table, m, feed, url, hints, i);
    }
    forall i | |table| <= i < |once|
      ensures once[i].externalId.Some? && Find(table, m, once[i].externalId.value) == |table| {
      assert NewRow(once[i], table, m, feed, url);
    }
    LookUpKept(table, once, m, x, hint);
  }

  /** A row of the first sync is merged to itself by the second. */
  lemma MergedTwice(table: seq<Product>, m: nat, feed: seq<Mapped>, url: string, hints: seq<nat>, i: nat)
    requires feed != [] && i < |Sync(table, m, feed, url, hints)|
    ensures var once := Sync(table, m, feed, url, hints); Merged(once, m, feed, url, hints, i) == once[i]
  {
    SyncIsMerge(table, m, feed, url, hints);
    var once := Sync(table, m, feed, url, hints);
    if i < |table| {
      forall x, hint
        ensures Find(table, m, x) < |table| ==> LookUp(once, m, x, hint) == LookUp(table, m, x, hint)
        ensures Find(table, m, x) == |table| ==> LookUp(once, m, x, hint) >= |table| {
        SyncLookUp(table, m, feed, url, hints, x, hint);
      }
      LastForKept(table, once, m, feed, hints, i);
      LastForIs(table, m, feed, hints, i);
    } else {
      assert NewRow(once[i], table, m, feed, url) && Alone(once, m, i);
      LastForAlone(once, m, feed, hints, i);
      LastIsSeen(feed, once[i].externalId.value);
    }
  }

  lemma {:induction false} NoneMissing(table: seq<Product>, m: nat, feed: seq<Mapped>)
    requires forall i :: 0 <= i < |table| ==> !Missing(table[i], m, feed)
    ensures MissingCount(table, m, feed) == 0
  {
    if table != [] {
      NoneMissing(table[..|table| - 1], m, feed);
    }
  }

  function Deactivated(table: seq<Product>, m: nat, feed: seq<Mapped>): nat {
    if feed == [] then 0 else MissingCount(table, m, feed)
  }

  ghost function Differing(a: seq<Product>, b: seq<Product>): set<nat>
    requires |a| == |b|
  {
    set i: nat | i < |a| && a[i] != b[i]
  }

  /** The deactivated counter is the number of rows that retiring changes. */
  lemma {:induction false} DeactivatedIs(table: seq<Product>, m: nat, feed: seq<Mapped>)
    ensures Deactivated(table, m, feed) == |Differing(table, Deactivate(table, m, feed))|
  {
    var next := Deactivate(table, m, feed);
    if feed == [] {
      assert Differing(table, next) == {};
    } else if table == [] {
      assert Differing(table, next) == {};
    } else {
      var n := |table| - 1;
      var init := table[..n];
      DeactivatedIs(init, m, feed);
      assert Deactivate(init, m, feed) == next[..n];
      var before := Differing(init, Deactivate(init, m, feed));
      assert Differing(table, next) == before + if Missing(table[n], m, feed) then {n} else {};
    }
  }

  /** For every table, a second sync of the same feed whose look-ups are answered as before
      changes no column. */
  lemma SyncTwice(table: seq<Product>, m: nat, feed: seq<Mapped>, url: string, hints: seq<nat>)
    ensures var once := Sync(table, m, feed, url, hints); Sync(once, m, feed, url, hints) == once
  {
    if feed != [] {
      var once := Sync(table, m, feed, url, hints);
      SyncIsMerge(table, m, feed, url, hints);
      UpsertsMerge(once, m, feed, url, hints);
      var cur := Upserts(once, m, feed, url, hints);
      assert |once| < |cur| ==> NewRow(cur[|once|], once, m, feed, url);
      forall i | 0 <= i < |once| ensures cur[i] == once[i] && !Missing(once[i], m, feed) {
        ActiveIsSeen(table, m, feed, url, hints, i);
        MergedTwice(table, m, feed, url, hints, i);
      }
      assert cur == once;
    }
  }

  /** A second sync retires nothing, whatever the look-ups return. */
  lemma SecondRetiresNothing(table: seq<Product>, m: nat, feed: seq<Mapped>, url: string, first: seq<nat>,
                             second: seq<nat>)
    ensures var once := Sync(table, m, feed, url, first);
            Deactivated(Upserts(once, m, feed, url, second), m, feed) == 0
  {
    if feed != [] {
      var once := Sync(table, m, feed, url, first);
      UpsertsMerge(once, m, feed, url, second);
      var cur := Upserts(once, m, feed, url, second);
      forall i | 0 <= i < |cur| ensures !Missing(cur[i], m, feed) {
        if i < |once| {
          ActiveIsSeen(table, m, feed, url, first, i);
          LastForIs(once, m, feed, second, i);
        } else {
          assert NewRow(cur[i], once, m, feed, url);
          LastIsSeen(feed, cur[i].externalId.value);
        }
      }
      NoneMissing(cur, m, feed);
    }
  }

  // ---- Two rows with one id ----

  /** No writable item of the feed would change an API row that shares its id. */
  ghost predicate Settled(table: seq<Product>, m: nat, feed: seq<Mapped>, url: string) {
    forall i, k :: 0 <= i < |table| && 0 <= k < |feed| && Contested(table, m, feed[k], i) ==>
      Written(table[i], feed[k], url) == table[i]
  }

  /** An API row the item may be written to, and another row with the same id. */
  ghost predicate Contested(table: seq<Product>, m: nat, p: Mapped, i: nat)
    requires i < |table|
  {
    Writable(p) && Has(table[i], m, p.externalId) && table[i].source == Api && !Alone(table, m, i)
  }

  lemma UniqueIsSettled(table: seq<Product>, m: nat, feed: seq<Mapped>, url: string)
    requires Unique(table, m)
    ensures Settled(table, m, feed, url)
  {
  }

  lemma SettledRow(table: seq<Product>, m: nat, feed: seq<Mapped>, url: string, a: seq<nat>, b: seq<nat>, i: nat)
    requires i < |table| && Settled(table, m, feed, url)
    ensures Merged(table, m, feed, url, a, i) == Merged(table, m, feed, url, b, i)
  {
    LastForIs(table, m, feed, a, i);
    LastForIs(table, m, feed, b, i);
    if table[i].source == Api && table[i].merchant == m && table[i].externalId.Some? {
      if Alone(table, m, i) {
        LastForAlone(table, m, feed, a, i);
        LastForAlone(table, m, feed, b, i);
      } else {
        SettledLast(table, m, feed, url, a, i);
        SettledLast(table, m, feed, url, b, i);
      }
    }
  }

  lemma SettledLast(table: seq<Product>, m: nat, feed: seq<Mapped>, url: string, hints: seq<nat>, i: nat)
    requires i < |table| && Settled(table, m, feed, url) && !Alone(table, m, i)
    ensures Merged(table, m, feed, url, hints, i) == table[i]
  {
    LastForIs(table, m, feed, hints, i);
    var last := LastFor(table, m, feed, hints, i);
    if table[i].source == Api && last.Some? {
      var k :| 0 <= k < |feed| && feed[k] == last.value && Writable(feed[k]);
      assert Contested(table, m, feed[k], i);
    }
  }

  /** Equal rows added, by two runs of the loop over the same table. */
  ghost predicate SameTail(table: seq<Product>, a: seq<Product>, b: seq<Product>) {
    |table| <= |a| == |b| && forall i :: |table| <= i < |a| ==> a[i] == b[i]
  }

  lemma SameTailStep(table: seq<Product>, m: nat, feed: seq<Mapped>, url: string, a: seq<nat>, b: seq<nat>,
                     x: seq<Product>, y: seq<Product>, p: Mapped, hint: nat, other: nat)
    requires IsMerge(table, m, feed, url, a, x) && IsMerge(table, m, feed, url, b, y) && SameTail(table, x, y)
    ensures SameTail(table, Upsert(x, m, p, url, hint), Upsert(y, m, p, url, other))
  {
    MergeLookUp(table, m, feed, url, a, x, p.externalId, hint);
    MergeLookUp(table, m, feed, url, b, y, p.externalId, other);
    var i := LookUp(x, m, p.externalId, hint);
    if |table| <= i < |x| {
      NewRowFound(table, m, feed, url, b, y, i, p.externalId);
      assert LookUp(y, m, p.externalId, other) == i;
    }
  }

  /** The rows added, and their order, do not depend on what the look-ups return. */
  lemma {:induction false} SameAdded(table: seq<Product>, m: nat, feed: seq<Mapped>, url: string, a: seq<nat>,
                                     b: seq<nat>)
    ensures SameTail(table, Upserts(table, m, feed, url, a), Upserts(table, m, feed, url, b))
  {
    if feed != [] {
      var n := |feed| - 1;
      SameAdded(table, m, feed[..n], url, a, b);
      UpsertsMerge(table, m, feed[..n], url, a);
      UpsertsMerge(table, m, feed[..n], url, b);
      SameTailStep(table, m, feed[..n], url, a, b, Upserts(table, m, feed[..n], url, a),
                   Upserts(table, m, feed[..n], url, b), feed[n], Hint(a, n), Hint(b, n));
    }
  }

  /** The hints that send item k to row i and every other item to row j. */
  function Diverting(n: nat, k: nat, i: nat, j: nat): seq<nat> {
    seq(n, q => if q == k then i else j)
  }

  lemma {:induction false} LastForDiverted(table: seq<Product>, m: nat, feed: seq<Mapped>, total: nat, k: nat, i: nat,
                                           j: nat)
    requires i < |table| && j < |table| && i != j && |feed| <= total && k <= total
    requires table[i].merchant == m == table[j].merchant && table[i].externalId == table[j].externalId
    requires k < |feed| ==> Writable(feed[k]) && Has(table[i], m, feed[k].externalId)
    ensures LastFor(table, m, feed, Diverting(total, k, i, j), i) == if k < |feed| then Some(feed[k]) else None
  {
    if feed != [] {
      var n := |feed| - 1;
      LastForDiverted(table, m, feed[..n], total, k, i, j);
      assert Hint(Diverting(total, k, i, j), n) == if n == k then i else j;
    }
  }

  /** Row i can be left as it is, or be written by item k, as the look-ups go. */
  lemma RowDiverted(table: seq<Product>, m: nat, feed: seq<Mapped>, url: string, k: nat, i: nat, j: nat)
    requires i < |table| && j < |table| && i != j && k < |feed| && Contested(table, m, feed[k], i)
    requires table[j].merchant == m && table[i].externalId == table[j].externalId
    ensures |table| <= |Sync(table, m, feed, url, Diverting(|feed|, |feed|, i, j))|
    ensures |table| <= |Sync(table, m, feed, url, Diverting(|feed|, k, i, j))|
    ensures Sync(table, m, feed, url, Diverting(|feed|, |feed|, i, j))[i] == table[i]
    ensures Sync(table, m, feed, url, Diverting(|feed|, k, i, j))[i] == Written(table[i], feed[k], url)
  {
    LastForDiverted(table, m, feed, |feed|, |feed|, i, j);
    LastForDiverted(table, m, feed, |feed|, k, i, j);
    SyncIsMerge(table, m, feed, url, Diverting(|feed|, |feed|, i, j));
    SyncIsMerge(table, m, feed, url, Diverting(|feed|, k, i, j));
    assert Seen(feed, feed[k].externalId);
  }

  lemma SettledSame(table: seq<Product>, m: nat, feed: seq<Mapped>, url: string, a: seq<nat>, b: seq<nat>)
    requires Settled(table, m, feed, url)
    ensures Sync(table, m, feed, url, a) == Sync(table, m, feed, url, b)
  {
    UpsertsMerge(table, m, feed, url, a);
    UpsertsMerge(table, m, feed, url, b);
    SameAdded(table, m, feed, url, a, b);
    var x, y := Upserts(table, m, feed, url, a), Upserts(table, m, feed, url, b);
    forall i | 0 <= i < |x| ensures x[i] == y[i] {
      if i < |table| {
        SettledRow(table, m, feed, url, a, b, i);
      }
    }
    assert x == y;
  }

  /** What a sync does depends on which rows the database returns, unless no item would
      change a row whose id it shares with another. */
  lemma LookUpsMatterIff(table: seq<Product>, m: nat, feed: seq<Mapped>, url: string)
    ensures (forall a, b :: Sync(table, m, feed, url, a) == Sync(table, m, feed, url, b))
       <==> Settled(table, m, feed, url)
  {
    if Settled(table, m, feed, url) {
      forall a, b ensures Sync(table, m, feed, url, a) == Sync(table, m, feed, url, b) {
        SettledSame(table, m, feed, url, a, b);
      }
    } else {
      var i, k :| 0 <= i < |table| && 0 <= k < |feed| && Contested(table, m, feed[k], i)
                  && Written(table[i], feed[k], url) != table[i];
      var j :| 0 <= j < |table| && table[j].merchant == m && table[j].externalId == table[i].externalId && j != i;
      RowDiverted(table, m, feed, url, k, i, j);
      assert Sync(table, m, feed, url, Diverting(|feed|, |feed|, i, j))[i]
          != Sync(table, m, feed, url, Diverting(|feed|, k, i, j))[i];
    }
  }

  /** The condition holds on after a sync. */
  lemma SettledStays(table: seq<Product>, m: nat, feed: seq<Mapped>, url: string, hints: seq<nat>)
    requires Settled(table, m, feed, url)
    ensures Settled(Sync(table, m, feed, url, hints), m, feed, url)
  {
    SyncIsMerge(table, m, feed, url, hints);
    var once := Sync(table, m, feed, url, hints);
    forall i, k | 0 <= i < |once| && 0 <= k < |feed| && Contested(once, m, feed[k], i)
      ensures Written(once[i], feed[k], url) == once[i] {
      if i < |table| {
        SyncKeeps(table, m, feed, url, hints, i);
        OldAlone(table, m, feed, url, hints, i);
        assert Contested(table, m, feed[k], i) && Seen(feed, feed[k].externalId);
        SettledLast(table, m, feed, url, hints, i);
      }
    }
  }

  /** A second sync changes nothing, whatever its look-ups and those of the first return,
      if and only if no item would change a row whose id it shares with another. */
  lemma SecondSyncIff(table: seq<Product>, m: nat, feed: seq<Mapped>, url: string)
    ensures (forall a, b :: Sync(Sync(table, m, feed, url, a), m, feed, url, b) == Sync(table, m, feed, url, a))
       <==> Settled(table, m, feed, url)
  {
    if Settled(table, m, feed, url) {
      forall a, b ensures Sync(Sync(table, m, feed, url, a), m, feed, url, b) == Sync(table, m, feed, url, a) {
        SettledStays(table, m, feed, url, a);
        SettledSame(Sync(table, m, feed, url, a), m, feed, url, b, a);
        SyncTwice(table, m, feed, url, a);
      }
    } else {
      var i, k :| 0 <= i < |table| && 0 <= k < |feed| && Contested(table, m, feed[k], i)
                  && Written(table[i], feed[k], url) != table[i];
      var j :| 0 <= j < |table| && table[j].merchant == m && table[j].externalId == table[i].externalId && j != i;
      SecondDiffers(table, m, feed, url, k, i, j);
    }
  }

  lemma SecondDiffers(table: seq<Product>, m: nat, feed: seq<Mapped>, url: string, k: nat, i: nat, j: nat)
    requires i < |table| && j < |table| && i != j && k < |feed| && Contested(table, m, feed[k], i)
    requires table[j].merchant == m && table[i].externalId == table[j].externalId
    requires Written(table[i], feed[k], url) != table[i]
    ensures var once := Sync(table, m, feed, url, Diverting(|feed|, |feed|, i, j));
            Sync(once, m, feed, url, Diverting(|feed|, k, i, j)) != once
  {
    var once := Sync(table, m, feed, url, Diverting(|feed|, |feed|, i, j));
    RowDiverted(table, m, feed, url, k, i, j);
    SyncKeeps(table, m, feed, url, Diverting(|feed|, |feed|, i, j), j);
    OldAlone(table, m, feed, url, Diverting(|feed|, |feed|, i, j), i);
    RowDiverted(once, m, feed, url, k, i, j);
  }

  /** One id held by an API row and by a hand-edited row. */
  function SharedId(stale: Details): seq<Product> {
    [Product(0, Some("x"), Api, stale, None, true), Product(0, Some("x"), Manual, stale, None, true)]
  }

  /** Looked up to the hand-edited row first and to the API row at the second sync, the
      item changes nothing at the first and a row at the second. */
  lemma SharedIdChangesLate(given: Details, stale: Details, url: string)
    requires given != stale && given.price == Fixed(1)
    ensures var feed := [Mapped("x", given, true)];
            && Sync(SharedId(stale), 0, feed, url, [1]) == SharedId(stale)
            && Sync(SharedId(stale), 0, feed, url, [0])[0].details == given
  {
    var table, feed := SharedId(stale), [Mapped("x", given, true)];
    assert feed[..0] == [] && Seen(feed, feed[0].externalId);
    assert Upserts(table, 0, feed, url, [1]) == Upsert(table, 0, feed[0], url, 1) == table;
    assert Upserts(table, 0, feed, url, [0]) == Upsert(table, 0, feed[0], url, 0);
    assert Sync(table, 0, feed, url, [1]) == table;
  }

  /** Whether an item is skipped does not depend on how far the loop has come. */
  lemma SkippedKept(table: seq<Product>, m: nat, feed: seq<Mapped>, url: string, hints: seq<nat>, p: Mapped, hint: nat)
    ensures Skipped(Upserts(table, m, feed, url, hints), m, p, hint) <==> Skipped(table, m, p, hint)
  {
    var next := Upserts(table, m, feed, url, hints);
    UpsertsMerge(table, m, feed, url, hints);
    MergeExtends(table, m, feed, url, hints, next);
    MergeLookUp(table, m, feed, url, hints, next, p.externalId, hint);
    var j := LookUp(next, m, p.externalId, hint);
    if j < |table| {
      assert SameKey(table[j], next[j]);
    } else if j < |next| {
      assert NewRow(next[j], table, m, feed, url);
    }
  }

  /** A mapped item always has a price the sync accepts, so only a hand-edited row with its
      id keeps it out; and it is mapped at all exactly when it carries a fixed price or
      both ends of a range. */
  lemma MappedPrice(a: Amounts, p: Mapped, table: seq<Product>, m: nat, hint: nat)
    ensures MapPrice(a).Some? <==> Else(a.supplierFixed, a.baseFixed).Some?
                                   || (Else(a.supplierMin, a.baseMin).Some? && Else(a.supplierMax, a.baseMax).Some?)
    ensures MapPrice(a) == Some(p.details.price) ==>
              && (p.details.price.isFixed <==> p.details.price.price.Some?)
              && (Skipped(table, m, p, hint) <==>
                    exists i :: 0 <= i < |table| && table[i].source == Manual
                                && i == LookUp(table, m, p.externalId, hint))
  {
  }

  lemma OneMore(table: seq<Product>, m: nat, feed: seq<Mapped>, url: string, hints: seq<nat>, n: nat)
    requires n < |feed|
    ensures var cur, p, hint := Upserts(table, m, feed[..n], url, hints), feed[n], Hint(hints, n);
            && Upserts(table, m, feed[..n + 1], url, hints) == Upsert(cur, m, p, url, hint)
            && SkippedCount(table, m, feed[..n + 1], hints)
               == SkippedCount(table, m, feed[..n], hints) + if Skipped(cur, m, p, hint) then 1 else 0
  {
    assert feed[..n + 1][..n] == feed[..n];
    SkippedKept(table, m, feed[..n], url, hints, feed[n], Hint(hints, n));
  }

  // ---- The service ----

  datatype SyncResult = SyncResult(upserted: nat, deactivated: nat, skipped: nat, totalRemote: nat)

  datatype Outcome = Synced(result: SyncResult) | NoUrl | FetchFailed

  class CatalogService {
    var products: seq<Product>

    /** One item: skipped without a price or on a hand-edited row, else written. The hint
        stands for the row the database returns first. */
    method UpsertProduct(m: nat, p: Mapped, fulfilmentUrl: string, hint: nat) returns (written: bool)
      modifies this
      ensures products == Upsert(old(products), m, p, fulfilmentUrl, hint)
      ensures written <==> !Skipped(old(products), m, p, hint)
      ensures var was, id := old(products), Some(p.externalId);
              var priced := (p.details.price.min.Some? && p.details.price.max.Some?)
                            || (p.details.price.isFixed && p.details.price.price.Some?);
              var known := exists j :: 0 <= j < |was| && was[j].merchant == m && was[j].externalId == id;
              if !written
              then
                && products == was
                && (priced ==> exists j :: 0 <= j < |was| && was[j].merchant == m && was[j].externalId == id
                                           && was[j].source == Manual)
              else if !known
              then priced && products == was + [Product(m, id, Api, p.details, Some(fulfilmentUrl), p.active)]
              else
                && priced
                && (exists j ::
                      && 0 <= j < |was| && was[j].merchant == m && was[j].externalId == id && was[j].source == Api
                      && products == was[j := Product(m, id, Api, p.details,
                                                      if was[j].fulfilmentUrl.Some? then was[j].fulfilmentUrl
                                                      else Some(fulfilmentUrl), p.active)])
    {
      ghost var was := products;
      var price := p.details.price;
      if price.min.None? || price.max.None? {
        if !price.isFixed || price.price.None? {
          return false;
        }
      }
      var i := LookUp(products, m, p.externalId, hint);
      assert i < |was| ==> Has(was[i], m, p.externalId);
      if i < |products| && products[i].source == Manual {
        return false;
      }
      assert forall j :: 0 <= j < |was| && was[j].merchant == m && was[j].externalId == Some(p.externalId) ==>
          Has(was[j], m, p.externalId);
      if i < |products| {
        products := products[i := Written(products[i], p, fulfilmentUrl)];
      } else {
        products := products + [Inserted(m, p, fulfilmentUrl)];
      }
      return true;
    }

    /** url is the configured address; fetched is the mapped feed, when one could be had. */
    method SyncMerchantCatalog(m: nat, url: Option<string>, fetched: Option<seq<Mapped>>, fulfilmentUrl: string,
                               hints: seq<nat>)
      returns (outcome: Outcome)
      modifies this
      ensures url.None? ==> outcome == NoUrl && products == old(products)
      ensures url.Some? && fetched.None? ==> outcome == FetchFailed && products == old(products)
      ensures url.Some? && fetched.Some? ==>
                var feed := fetched.value;
                && products == Sync(old(products), m, feed, fulfilmentUrl, hints)
                && outcome.Synced?
                && var r := outcome.result;
                && r.totalRemote == |feed|
                && r.upserted + r.skipped == |feed|
                && r.skipped == SkippedCount(old(products), m, feed, hints)
                && r.deactivated == Deactivated(Upserts(old(products), m, feed, fulfilmentUrl, hints), m, feed)
    {
      if url.None? {
        return NoUrl;
      }
      if fetched.None? {
        return FetchFailed;
      }
      ghost var before := products;
      var feed := fetched.value;
      var upserted, skipped := 0, 0;
      var seenIds: seq<string> := [];
      for n := 0 to |feed|
        invariant products == Upserts(before, m, feed[..n], fulfilmentUrl, hints)
        invariant |seenIds| == n
        invariant upserted + skipped == n
        invariant skipped == SkippedCount(before, m, feed[..n], hints)
      {
        var p := feed[n];
        OneMore(before, m, feed, fulfilmentUrl, hints, n);
        seenIds := seenIds + [p.externalId];
        var written := UpsertProduct(m, p, fulfilmentUrl, Hint(hints, n));
        if written {
          upserted := upserted + 1;
        } else {
          skipped := skipped + 1;
        }
      }
      assert feed[..|feed|] == feed;
      var deactivated := 0;
      if seenIds != [] {
        deactivated := MissingCount(products, m, feed);
        products := Deactivate(products, m, feed);
      }
      outcome := Synced(SyncResult(upserted, deactivated, skipped, |feed|));
    }
  }
}
