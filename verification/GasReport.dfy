/** gasCostService.ts: the gas report as a partition of its rows. Amounts stay in wei; the
    conversions to ETH and rand, and the sorting of lines by them, are not modelled. */
module GasReport {
  import opened Wrappers

  datatype Category = Onboarding | Transaction | Operations | Deployment

  /** A gas cost joined with the sale it paid for, if any. */
  datatype GasRow = GasRow(source: string, category: Category, cost: Cost, saleStatus: Option<string>,
                           fulfilment: Option<string>)

  datatype Cost = Cost(wei: nat, at: nat)

  /** A report adds up two things: how many costs, and how much. */
  datatype Measure = Count | Wei

  function Amount(costs: seq<Cost>, unit: Measure): (n: nat)
    ensures unit == Count ==> n == |costs|
  {
    if costs == [] then 0
    else Amount(costs[..|costs| - 1], unit) + if unit == Count then 1 else costs[|costs| - 1].wei
  }

  // ---- Classification and buckets ----

  predicate Unsuccessful(row: GasRow) {
    row.saleStatus == Some("refunded") || row.fulfilment == Some("failed")
  }

  predicate IsSession(source: string) {
    source == "session" || source == "session_ok" || source == "session_fail"
  }

  function Classified(row: GasRow): string {
    if IsSession(row.source) then (if Unsuccessful(row) then "session_fail" else "session_ok")
    else if row.source == "relay" then "passkey"
    else row.source
  }

  /** What the bucket map's text key stands for; KeyText tells two of these apart. */
  datatype Key = Key(category: Category, source: string)

  function KeyOf(row: GasRow): Key {
    Key(row.category, Classified(row))
  }

  /** An entry of the map from keys to buckets, in the order the keys were first set. */
  datatype Bucket = Bucket(category: Category, source: string, rows: seq<Cost>)

  predicate Holds(b: Bucket, key: Key) {
    Key(b.category, b.source) == key
  }

  /** The bucket of a key, or the number of buckets. */
  function Find(buckets: seq<Bucket>, key: Key): (i: nat)
    ensures i <= |buckets|
    ensures i < |buckets| ==> Holds(buckets[i], key)
    ensures forall j :: 0 <= j < i ==> !Holds(buckets[j], key)
  {
    if buckets == [] then 0
    else
      var n := |buckets| - 1;
      var i := Find(buckets[..n], key);
      if i < n || Holds(buckets[n], key) then i else n + 1
  }

  function AddTo(buckets: seq<Bucket>, row: GasRow): seq<Bucket> {
    var i := Find(buckets, KeyOf(row));
    if i < |buckets| then buckets[i := buckets[i].(rows := buckets[i].rows + [row.cost])]
    else buckets + [Bucket(row.category, Classified(row), [row.cost])]
  }

  function Buckets(rows: seq<GasRow>): seq<Bucket> {
    if rows == [] then [] else AddTo(Buckets(rows[..|rows| - 1]), rows[|rows| - 1])
  }

  function Costs(rows: seq<GasRow>, key: Key): seq<Cost> {
    if rows == [] then []
    else Costs(rows[..|rows| - 1], key) + if KeyOf(rows[|rows| - 1]) == key then [rows[|rows| - 1].cost] else []
  }

  /** The totals of one category over rows, buckets and lines. */
  function RowsIn(rows: seq<GasRow>, g: Category, unit: Measure): nat {
    if rows == [] then 0
    else
      var row := rows[|rows| - 1];
      RowsIn(rows[..|rows| - 1], g, unit) + (if row.category == g then Amount([row.cost], unit) else 0)
  }

  function BucketsIn(buckets: seq<Bucket>, g: Category, unit: Measure): nat {
    if buckets == [] then 0
    else
      var b := buckets[|buckets| - 1];
      BucketsIn(buckets[..|buckets| - 1], g, unit) + (if b.category == g then Amount(b.rows, unit) else 0)
  }

  // ---- Lines of the report ----

  /** last is the most recent cost; None when there is none. */
  datatype Line = Line(category: Category, source: Option<string>, count: nat, wei: nat, last: Option<nat>)

  function Value(line: Line, unit: Measure): nat {
    if unit == Count then line.count else line.wei
  }

  function LinesIn(lines: seq<Line>, g: Category, unit: Measure): nat {
    if lines == [] then 0
    else
      var line := lines[|lines| - 1];
      LinesIn(lines[..|lines| - 1], g, unit) + (if line.category == g then Value(line, unit) else 0)
  }

  function Sum(lines: seq<Line>, unit: Measure): nat {
    if lines == [] then 0 else Sum(lines[..|lines| - 1], unit) + Value(lines[|lines| - 1], unit)
  }

  /** The cost recorded last, the later of equals. */
  function Latest(costs: seq<Cost>): Option<Cost> {
    if costs == [] then None
    else
      var n := |costs| - 1;
      var before := Latest(costs[..n]);
      if before.None? || costs[n].at >= before.value.at then Some(costs[n]) else before
  }

  function LineOf(category: Category, source: Option<string>, costs: seq<Cost>): Line {
    Line(category, source, |costs|, Amount(costs, Wei),
         if Latest(costs).Some? then Some(Latest(costs).value.wei) else None)
  }

  /** An entry of the map from the other categories to their rows. */
  datatype Rolled = Rolled(category: Category, rows: seq<Cost>)

  function FindRolled(rolled: seq<Rolled>, c: Category): (i: nat)
    ensures i <= |rolled|
    ensures i < |rolled| ==> rolled[i].category == c
    ensures forall j :: 0 <= j < i ==> rolled[j].category != c
  {
    if rolled == [] then 0
    else
      var n := |rolled| - 1;
      var i := FindRolled(rolled[..n], c);
      if i < n || rolled[n].category == c then i else n + 1
  }

  function Roll(rolled: seq<Rolled>, b: Bucket): seq<Rolled> {
    var i := FindRolled(rolled, b.category);
    if i < |rolled| then rolled[i := Rolled(b.category, rolled[i].rows + b.rows)]
    else rolled + [Rolled(b.category, b.rows)]
  }

  function RolledUp(buckets: seq<Bucket>): seq<Rolled> {
    if buckets == [] then []
    else
      var b := buckets[|buckets| - 1];
      var before := RolledUp(buckets[..|buckets| - 1]);
      if b.category == Transaction then before else Roll(before, b)
  }

  /** Consumer lines other than session payments. */
  function ConsumerLines(buckets: seq<Bucket>): seq<Line> {
    if buckets == [] then []
    else
      var b := buckets[|buckets| - 1];
      ConsumerLines(buckets[..|buckets| - 1])
      + if b.category != Transaction || IsSession(b.source) then [] else [LineOf(Transaction, Some(b.source), b.rows)]
  }

  function RowsAt(buckets: seq<Bucket>, key: Key): seq<Cost> {
    var i := Find(buckets, key);
    if i < |buckets| then buckets[i].rows else []
  }

  /** Both session lines as soon as there is one session payment. */
  function SessionLines(buckets: seq<Bucket>): seq<Line> {
    var ok, fail := Key(Transaction, "session_ok"), Key(Transaction, "session_fail");
    if Find(buckets, ok) == |buckets| && Find(buckets, fail) == |buckets| then []
    else [LineOf(Transaction, Some("session_ok"), RowsAt(buckets, ok)),
          LineOf(Transaction, Some("session_fail"), RowsAt(buckets, fail))]
  }

  function OtherLines(rolled: seq<Rolled>): seq<Line> {
    if rolled == [] then []
    else
      var r := rolled[|rolled| - 1];
      OtherLines(rolled[..|rolled| - 1]) + [LineOf(r.category, None, r.rows)]
  }

  function SourceLines(buckets: seq<Bucket>): seq<Line> {
    if buckets == [] then []
    else
      var b := buckets[|buckets| - 1];
      SourceLines(buckets[..|buckets| - 1]) + [LineOf(b.category, Some(b.source), b.rows)]
  }

  function Only(lines: seq<Line>, g: Category): seq<Line> {
    if lines == [] then []
    else Only(lines[..|lines| - 1], g) + if lines[|lines| - 1].category == g then [lines[|lines| - 1]] else []
  }

  /** The rows behind a category, bucket by bucket. */
  function CategoryRows(buckets: seq<Bucket>, g: Category): seq<Cost> {
    if buckets == [] then []
    else
      var b := buckets[|buckets| - 1];
      CategoryRows(buckets[..|buckets| - 1], g) + if b.category == g then b.rows else []
  }

  function RolledRows(rolled: seq<Rolled>, g: Category): seq<Cost> {
    var i := FindRolled(rolled, g);
    if i < |rolled| then rolled[i].rows else []
  }

  /** A group is left out when it has no lines. Its last cost is the most recent of its
      category's rows. */
  datatype Group = Group(category: Category, lines: seq<Line>, last: Option<nat>)

  function GroupOf(buckets: seq<Bucket>, consumer: seq<Line>, other: seq<Line>, g: Category): seq<Group> {
    var lines := if g == Transaction then consumer else Only(other, g);
    var rows := if g == Transaction then CategoryRows(buckets, g) else RolledRows(RolledUp(buckets), g);
    if lines == [] then [] else [Group(g, lines, LineOf(g, None, rows).last)]
  }

  function GroupSum(groups: seq<Group>, unit: Measure): nat {
    if groups == [] then 0 else GroupSum(groups[..|groups| - 1], unit) + Sum(groups[|groups| - 1].lines, unit)
  }

  // ---- Keys ----

  function Name(c: Category): string {
    match c
    case Onboarding => "onboarding"
    case Transaction => "transaction"
    case Operations => "operations"
    case Deployment => "deployment"
  }

  function KeyText(k: Key): string {
    Name(k.category) + ("::" + k.source)
  }

  /** The text keys tell categories and sources apart, whatever text a source is. */
  lemma KeyInjective(a: Key, b: Key)
    ensures KeyText(a) == KeyText(b) <==> a == b
  {
    if KeyText(a) == KeyText(b) {
      assert KeyText(a)[0] == Name(a.category)[0] && KeyText(a)[1] == Name(a.category)[1];
      assert KeyText(b)[0] == Name(b.category)[0] && KeyText(b)[1] == Name(b.category)[1];
      assert a.category == b.category;
      assert KeyText(a)[|Name(a.category)| + 2..] == a.source && KeyText(b)[|Name(a.category)| + 2..] == b.source;
    }
  }

  // ---- Every row is in one bucket ----

  ghost predicate Distinct(buckets: seq<Bucket>) {
    forall i, j :: 0 <= i < j < |buckets| ==>
      Key(buckets[i].category, buckets[i].source) != Key(buckets[j].category, buckets[j].source)
  }

  /** The source is one that classification can give. */
  predicate Settled(b: Bucket) {
    b.source != "session" && b.source != "relay"
  }

  ghost predicate Partitions(rows: seq<GasRow>, buckets: seq<Bucket>) {
    && Distinct(buckets)
    && (forall i :: 0 <= i < |buckets| ==>
          buckets[i].rows == Costs(rows, Key(buckets[i].category, buckets[i].source)) && Settled(buckets[i]))
    && (forall i :: 0 <= i < |rows| ==> Find(buckets, KeyOf(rows[i])) < |buckets|)
  }

  lemma {:induction false} UnseenKey(rows: seq<GasRow>, buckets: seq<Bucket>, key: Key)
    requires forall i :: 0 <= i < |rows| ==> Find(buckets, KeyOf(rows[i])) < |buckets|
    requires Find(buckets, key) == |buckets|
    ensures Costs(rows, key) == []
  {
    if rows != [] {
      UnseenKey(rows[..|rows| - 1], buckets, key);
      assert Find(buckets, KeyOf(rows[|rows| - 1])) < |buckets|;
    }
  }

  lemma AddDistinct(rows: seq<GasRow>, row: GasRow, buckets: seq<Bucket>)
    requires Partitions(rows, buckets)
    ensures Distinct(AddTo(buckets, row))
  {
    var next, at := AddTo(buckets, row), Find(buckets, KeyOf(row));
    forall i, j | 0 <= i < j < |next|
      ensures Key(next[i].category, next[i].source) != Key(next[j].category, next[j].source)
    {
      assert i < |buckets| && at == |buckets| ==> !Holds(buckets[i], KeyOf(row));
    }
  }

  lemma CostsExtend(rows: seq<GasRow>, row: GasRow, key: Key)
    ensures Costs(rows + [row], key) == Costs(rows, key) + if KeyOf(row) == key then [row.cost] else []
  {
    assert (rows + [row])[..|rows|] == rows;
  }

  lemma AddHolds(rows: seq<GasRow>, row: GasRow, buckets: seq<Bucket>, i: nat)
    requires Partitions(rows, buckets) && i < |AddTo(buckets, row)|
    ensures AddTo(buckets, row)[i].rows
         == Costs(rows + [row], Key(AddTo(buckets, row)[i].category, AddTo(buckets, row)[i].source))
    ensures Settled(AddTo(buckets, row)[i])
  {
    var at, b := Find(buckets, KeyOf(row)), AddTo(buckets, row)[i];
    CostsExtend(rows, row, Key(b.category, b.source));
    if at == |buckets| && i == at {
      UnseenKey(rows, buckets, KeyOf(row));
    } else if i != at {
      assert !Holds(buckets[i], KeyOf(row));
    }
  }

  lemma AddPartitions(rows: seq<GasRow>, row: GasRow, buckets: seq<Bucket>)
    requires Partitions(rows, buckets)
    ensures Partitions(rows + [row], AddTo(buckets, row))
  {
    var next, at := AddTo(buckets, row), Find(buckets, KeyOf(row));
    AddDistinct(rows, row, buckets);
    forall i | 0 <= i < |next|
      ensures next[i].rows == Costs(rows + [row], Key(next[i].category, next[i].source)) && Settled(next[i])
    {
      AddHolds(rows, row, buckets, i);
    }
    forall i | 0 <= i < |rows + [row]| ensures Find(next, KeyOf((rows + [row])[i])) < |next| {
      if i < |rows| {
        StillFound(buckets, row, KeyOf(rows[i]));
      } else {
        assert Holds(next[at], KeyOf(row));
      }
    }
  }

  lemma StillFound(buckets: seq<Bucket>, row: GasRow, key: Key)
    requires Find(buckets, key) < |buckets|
    ensures Find(AddTo(buckets, row), key) < |AddTo(buckets, row)|
  {
    assert Holds(AddTo(buckets, row)[Find(buckets, key)], key);
  }

  /** No two buckets share a key, each holds exactly the costs of the rows with its key, in
      order, and no row is without a bucket. */
  lemma {:induction false} EveryRowInOneBucket(rows: seq<GasRow>)
    ensures Partitions(rows, Buckets(rows))
  {
    if rows != [] {
      var init := rows[..|rows| - 1];
      EveryRowInOneBucket(init);
      AddPartitions(init, rows[|rows| - 1], Buckets(init));
      assert rows == init + [rows[|rows| - 1]];
    }
  }

  // ---- Totals by bucket ----

  lemma {:induction false} AmountAppend(a: seq<Cost>, b: seq<Cost>, unit: Measure)
    ensures Amount(a + b, unit) == Amount(a, unit) + Amount(b, unit)
  {
    if b == [] {
      assert a + b == a;
    } else {
      var n := |b| - 1;
      AmountAppend(a, b[..n], unit);
      assert (a + b)[..|a| + n] == a + b[..n];
    }
  }

  lemma {:induction false} GrownBucket(buckets: seq<Bucket>, at: nat, cost: Cost, g: Category, unit: Measure)
    requires at < |buckets|
    ensures BucketsIn(buckets[at := buckets[at].(rows := buckets[at].rows + [cost])], g, unit)
         == BucketsIn(buckets, g, unit) + (if buckets[at].category == g then Amount([cost], unit) else 0)
  {
    var n := |buckets| - 1;
    var grown := buckets[at].(rows := buckets[at].rows + [cost]);
    var next := buckets[at := grown];
    if at == n {
      assert next[..n] == buckets[..n];
      AmountAppend(buckets[n].rows, [cost], unit);
    } else {
      GrownBucket(buckets[..n], at, cost, g, unit);
      assert next[..n] == buckets[..n][at := grown];
    }
  }

  lemma AddedAmount(buckets: seq<Bucket>, row: GasRow, g: Category, unit: Measure)
    ensures BucketsIn(AddTo(buckets, row), g, unit)
         == BucketsIn(buckets, g, unit) + (if row.category == g then Amount([row.cost], unit) else 0)
  {
    var at := Find(buckets, KeyOf(row));
    if at < |buckets| {
      GrownBucket(buckets, at, row.cost, g, unit);
    } else {
      assert AddTo(buckets, row)[..|buckets|] == buckets;
    }
  }

  lemma {:induction false} BucketTotals(rows: seq<GasRow>, g: Category, unit: Measure)
    ensures BucketsIn(Buckets(rows), g, unit) == RowsIn(rows, g, unit)
  {
    if rows != [] {
      var init := rows[..|rows| - 1];
      BucketTotals(init, g, unit);
      AddedAmount(Buckets(init), rows[|rows| - 1], g, unit);
    }
  }

  // ---- Totals by line ----

  lemma {:induction false} LinesAppend(a: seq<Line>, b: seq<Line>, g: Category, unit: Measure)
    ensures LinesIn(a + b, g, unit) == LinesIn(a, g, unit) + LinesIn(b, g, unit)
  {
    if b == [] {
      assert a + b == a;
    } else {
      var n := |b| - 1;
      LinesAppend(a, b[..n], g, unit);
      assert (a + b)[..|a| + n] == a + b[..n];
    }
  }

  lemma LineAlone(c: Category, source: Option<string>, costs: seq<Cost>, g: Category, unit: Measure)
    ensures LinesIn([LineOf(c, source, costs)], g, unit) == if c == g then Amount(costs, unit) else 0
  {
    assert [LineOf(c, source, costs)][..0] == [];
  }

  lemma {:induction false} SourceTotals(buckets: seq<Bucket>, g: Category, unit: Measure)
    ensures LinesIn(SourceLines(buckets), g, unit) == BucketsIn(buckets, g, unit)
  {
    if buckets != [] {
      var n := |buckets| - 1;
      var b := buckets[n];
      SourceTotals(buckets[..n], g, unit);
      LinesAppend(SourceLines(buckets[..n]), [LineOf(b.category, Some(b.source), b.rows)], g, unit);
      LineAlone(b.category, Some(b.source), b.rows, g, unit);
    }
  }

  lemma OtherLast(rolled: seq<Rolled>, g: Category, unit: Measure)
    requires rolled != []
    ensures LinesIn(OtherLines(rolled), g, unit)
         == LinesIn(OtherLines(rolled[..|rolled| - 1]), g, unit)
            + (if rolled[|rolled| - 1].category == g then Amount(rolled[|rolled| - 1].rows, unit) else 0)
  {
    var r := rolled[|rolled| - 1];
    LinesAppend(OtherLines(rolled[..|rolled| - 1]), [LineOf(r.category, None, r.rows)], g, unit);
    LineAlone(r.category, None, r.rows, g, unit);
  }

  lemma {:induction false} GrownLine(rolled: seq<Rolled>, at: nat, more: seq<Cost>, g: Category, unit: Measure)
    requires at < |rolled|
    ensures LinesIn(OtherLines(rolled[at := Rolled(rolled[at].category, rolled[at].rows + more)]), g, unit)
         == LinesIn(OtherLines(rolled), g, unit) + (if rolled[at].category == g then Amount(more, unit) else 0)
  {
    var n := |rolled| - 1;
    var grown := Rolled(rolled[at].category, rolled[at].rows + more);
    var next := rolled[at := grown];
    OtherLast(rolled, g, unit);
    OtherLast(next, g, unit);
    if at == n {
      assert next[..n] == rolled[..n];
      AmountAppend(rolled[n].rows, more, unit);
    } else {
      GrownLine(rolled[..n], at, more, g, unit);
      assert next[..n] == rolled[..n][at := grown];
    }
  }

  lemma RolledAmount(rolled: seq<Rolled>, b: Bucket, g: Category, unit: Measure)
    ensures LinesIn(OtherLines(Roll(rolled, b)), g, unit)
         == LinesIn(OtherLines(rolled), g, unit) + (if b.category == g then Amount(b.rows, unit) else 0)
  {
    var at := FindRolled(rolled, b.category);
    if at < |rolled| {
      GrownLine(rolled, at, b.rows, g, unit);
    } else {
      assert Roll(rolled, b)[..|rolled|] == rolled;
      OtherLast(Roll(rolled, b), g, unit);
    }
  }

  lemma RolledStep(buckets: seq<Bucket>, g: Category, unit: Measure)
    requires buckets != []
    ensures var b, init := buckets[|buckets| - 1], buckets[..|buckets| - 1];
            LinesIn(OtherLines(RolledUp(buckets)), g, unit) == LinesIn(OtherLines(RolledUp(init)), g, unit)
              + (if b.category == g && g != Transaction then Amount(b.rows, unit) else 0)
  {
    var b, before := buckets[|buckets| - 1], RolledUp(buckets[..|buckets| - 1]);
    RolledAmount(before, b, g, unit);
    assert RolledUp(buckets) == if b.category == Transaction then before else Roll(before, b);
  }

  lemma {:induction false} OtherTotals(buckets: seq<Bucket>, g: Category, unit: Measure)
    ensures LinesIn(OtherLines(RolledUp(buckets)), g, unit)
         == if g == Transaction then 0 else BucketsIn(buckets, g, unit)
  {
    if buckets != [] {
      var n := |buckets| - 1;
      OtherTotals(buckets[..n], g, unit);
      RolledStep(buckets, g, unit);
    }
  }

  lemma FindLast(buckets: seq<Bucket>, key: Key, unit: Measure)
    requires buckets != [] && Distinct(buckets)
    ensures Amount(RowsAt(buckets, key), unit)
         == Amount(RowsAt(buckets[..|buckets| - 1], key), unit)
            + (if Holds(buckets[|buckets| - 1], key) then Amount(buckets[|buckets| - 1].rows, unit) else 0)
  {
    var n := |buckets| - 1;
    var i := Find(buckets[..n], key);
    assert i < n ==> Holds(buckets[i], key);
  }

  lemma ConsumerLast(buckets: seq<Bucket>, unit: Measure)
    requires buckets != []
    ensures LinesIn(ConsumerLines(buckets), Transaction, unit)
         == LinesIn(ConsumerLines(buckets[..|buckets| - 1]), Transaction, unit)
            + (if buckets[|buckets| - 1].category == Transaction && !IsSession(buckets[|buckets| - 1].source)
               then Amount(buckets[|buckets| - 1].rows, unit) else 0)
  {
    var b := buckets[|buckets| - 1];
    var line := LineOf(Transaction, Some(b.source), b.rows);
    LinesAppend(ConsumerLines(buckets[..|buckets| - 1]), [line], Transaction, unit);
    LineAlone(Transaction, Some(b.source), b.rows, Transaction, unit);
    assert ConsumerLines(buckets[..|buckets| - 1]) + [] == ConsumerLines(buckets[..|buckets| - 1]);
  }

  /** A settled source is a session source in exactly one of two ways. */
  lemma SessionKinds(b: Bucket)
    requires Settled(b)
    ensures IsSession(b.source) <==> b.source == "session_ok" || b.source == "session_fail"
    ensures !(b.source == "session_ok" && b.source == "session_fail")
  {
    assert "session_ok"[8] != "session_fail"[8];
  }

  function SessionAmount(buckets: seq<Bucket>, unit: Measure): nat {
    Amount(RowsAt(buckets, Key(Transaction, "session_ok")), unit)
    + Amount(RowsAt(buckets, Key(Transaction, "session_fail")), unit)
  }

  lemma SessionLast(buckets: seq<Bucket>, unit: Measure)
    requires buckets != [] && Distinct(buckets) && Settled(buckets[|buckets| - 1])
    ensures SessionAmount(buckets, unit)
         == SessionAmount(buckets[..|buckets| - 1], unit)
            + (if buckets[|buckets| - 1].category == Transaction && IsSession(buckets[|buckets| - 1].source)
               then Amount(buckets[|buckets| - 1].rows, unit) else 0)
  {
    SessionKinds(buckets[|buckets| - 1]);
    FindLast(buckets, Key(Transaction, "session_ok"), unit);
    FindLast(buckets, Key(Transaction, "session_fail"), unit);
  }

  /** The consumer lines and the two session look-ups together take every bucket of the
      transaction category exactly once. */
  lemma {:induction false} ConsumerTotals(buckets: seq<Bucket>, unit: Measure)
    requires Distinct(buckets) && forall i :: 0 <= i < |buckets| ==> Settled(buckets[i])
    ensures BucketsIn(buckets, Transaction, unit)
         == LinesIn(ConsumerLines(buckets), Transaction, unit) + SessionAmount(buckets, unit)
  {
    if buckets != [] {
      ConsumerTotals(buckets[..|buckets| - 1], unit);
      ConsumerLast(buckets, unit);
      SessionLast(buckets, unit);
    }
  }

  lemma {:induction false} ConsumerOnly(buckets: seq<Bucket>)
    ensures forall i :: 0 <= i < |ConsumerLines(buckets)| ==> ConsumerLines(buckets)[i].category == Transaction
  {
    if buckets != [] {
      ConsumerOnly(buckets[..|buckets| - 1]);
    }
  }

  lemma TwoLines(a: Line, b: Line, g: Category, unit: Measure)
    ensures LinesIn([a, b], g, unit) == LinesIn([a], g, unit) + LinesIn([b], g, unit)
  {
    LinesAppend([a], [b], g, unit);
    assert [a] + [b] == [a, b];
  }

  lemma SessionTotals(buckets: seq<Bucket>, g: Category, unit: Measure)
    ensures LinesIn(SessionLines(buckets), g, unit) == if g == Transaction then SessionAmount(buckets, unit) else 0
  {
    var ok, fail := Key(Transaction, "session_ok"), Key(Transaction, "session_fail");
    TwoLines(LineOf(Transaction, Some(ok.source), RowsAt(buckets, ok)),
             LineOf(Transaction, Some(fail.source), RowsAt(buckets, fail)), g, unit);
    LineAlone(Transaction, Some(ok.source), RowsAt(buckets, ok), g, unit);
    LineAlone(Transaction, Some(fail.source), RowsAt(buckets, fail), g, unit);
  }

  lemma {:induction false} NoneIn(lines: seq<Line>, g: Category, unit: Measure)
    requires forall i :: 0 <= i < |lines| ==> lines[i].category != g
    ensures LinesIn(lines, g, unit) == 0
  {
    if lines != [] {
      NoneIn(lines[..|lines| - 1], g, unit);
    }
  }

  lemma {:induction false} AllIn(lines: seq<Line>, g: Category, unit: Measure)
    requires forall i :: 0 <= i < |lines| ==> lines[i].category == g
    ensures LinesIn(lines, g, unit) == Sum(lines, unit)
  {
    if lines != [] {
      AllIn(lines[..|lines| - 1], g, unit);
    }
  }

  lemma SumExtend(a: seq<Line>, line: Line, unit: Measure)
    ensures Sum(a + [line], unit) == Sum(a, unit) + Value(line, unit)
  {
    assert (a + [line])[..|a|] == a;
  }

  lemma {:induction false} OnlySum(lines: seq<Line>, g: Category, unit: Measure)
    ensures Sum(Only(lines, g), unit) == LinesIn(lines, g, unit)
  {
    if lines != [] {
      var n := |lines| - 1;
      OnlySum(lines[..n], g, unit);
      if lines[n].category == g {
        SumExtend(Only(lines[..n], g), lines[n], unit);
      } else {
        assert Only(lines, g) == Only(lines[..n], g);
      }
    }
  }

  /** A sum over the four categories is the sum over everything. */
  lemma {:induction false} FourCategories(lines: seq<Line>, unit: Measure)
    ensures Sum(lines, unit) == LinesIn(lines, Transaction, unit) + LinesIn(lines, Onboarding, unit)
                                + LinesIn(lines, Operations, unit) + LinesIn(lines, Deployment, unit)
  {
    if lines != [] {
      FourCategories(lines[..|lines| - 1], unit);
    }
  }

  /** The totals over all rows, whatever their category. */
  function Total(rows: seq<GasRow>, unit: Measure): nat {
    if rows == [] then 0 else Total(rows[..|rows| - 1], unit) + Amount([rows[|rows| - 1].cost], unit)
  }

  lemma {:induction false} TotalByCategory(rows: seq<GasRow>, unit: Measure)
    ensures Total(rows, unit) == RowsIn(rows, Transaction, unit) + RowsIn(rows, Onboarding, unit)
                                 + RowsIn(rows, Operations, unit) + RowsIn(rows, Deployment, unit)
  {
    if rows != [] {
      TotalByCategory(rows[..|rows| - 1], unit);
    }
  }

  lemma {:induction false} TotalCount(rows: seq<GasRow>)
    ensures Total(rows, Count) == |rows|
  {
    if rows != [] {
      TotalCount(rows[..|rows| - 1]);
    }
  }

  // ---- The three views ----

  function ConsumerView(buckets: seq<Bucket>): seq<Line> {
    ConsumerLines(buckets) + SessionLines(buckets)
  }

  function ByCategory(buckets: seq<Bucket>): seq<Line> {
    ConsumerView(buckets) + OtherLines(RolledUp(buckets))
  }

  function GroupsOf(buckets: seq<Bucket>, consumer: seq<Line>, other: seq<Line>, order: seq<Category>): seq<Group> {
    if order == [] then []
    else
      var n := |order| - 1;
      GroupsOf(buckets, consumer, other, order[..n]) + GroupOf(buckets, consumer, other, order[n])
  }

  const GROUP_ORDER: seq<Category> := [Transaction, Onboarding, Operations, Deployment]

  lemma ConsumerViewTotals(rows: seq<GasRow>, g: Category, unit: Measure)
    ensures LinesIn(ConsumerView(Buckets(rows)), g, unit) == if g == Transaction then RowsIn(rows, g, unit) else 0
  {
    var buckets := Buckets(rows);
    LinesAppend(ConsumerLines(buckets), SessionLines(buckets), g, unit);
    SessionTotals(buckets, g, unit);
    if g == Transaction {
      EveryRowInOneBucket(rows);
      ConsumerTotals(buckets, unit);
      BucketTotals(rows, g, unit);
    } else {
      ConsumerOnly(buckets);
      NoneIn(ConsumerLines(buckets), g, unit);
    }
  }

  lemma OtherViewTotals(rows: seq<GasRow>, g: Category, unit: Measure)
    ensures LinesIn(OtherLines(RolledUp(Buckets(rows))), g, unit)
         == if g == Transaction then 0 else RowsIn(rows, g, unit)
  {
    OtherTotals(Buckets(rows), g, unit);
    BucketTotals(rows, g, unit);
  }

  lemma CategoryTotals(rows: seq<GasRow>, g: Category, unit: Measure)
    ensures LinesIn(ByCategory(Buckets(rows)), g, unit) == RowsIn(rows, g, unit)
  {
    ConsumerViewTotals(rows, g, unit);
    OtherViewTotals(rows, g, unit);
    LinesAppend(ConsumerView(Buckets(rows)), OtherLines(RolledUp(Buckets(rows))), g, unit);
  }

  lemma ConsumerViewOnly(buckets: seq<Bucket>, unit: Measure)
    ensures LinesIn(ConsumerView(buckets), Transaction, unit) == Sum(ConsumerView(buckets), unit)
  {
    ConsumerOnly(buckets);
    AllIn(ConsumerView(buckets), Transaction, unit);
  }

  /** A group shows exactly the rows of its category; a group that is left out has none. */
  lemma {:induction false} GroupTotal(rows: seq<GasRow>, g: Category, unit: Measure)
    ensures var buckets := Buckets(rows);
            GroupSum(GroupOf(buckets, ConsumerView(buckets), OtherLines(RolledUp(buckets)), g), unit)
            == RowsIn(rows, g, unit)
  {
    var buckets := Buckets(rows);
    ConsumerViewTotals(rows, g, unit);
    OtherViewTotals(rows, g, unit);
    ConsumerViewOnly(buckets, unit);
    OnlySum(OtherLines(RolledUp(buckets)), g, unit);
    var group := GroupOf(buckets, ConsumerView(buckets), OtherLines(RolledUp(buckets)), g);
    assert group != [] ==> group[..0] == [];
  }

  lemma {:induction false} GroupSumAppend(a: seq<Group>, b: seq<Group>, unit: Measure)
    ensures GroupSum(a + b, unit) == GroupSum(a, unit) + GroupSum(b, unit)
  {
    if b == [] {
      assert a + b == a;
    } else {
      var n := |b| - 1;
      GroupSumAppend(a, b[..n], unit);
      assert (a + b)[..|a| + n] == a + b[..n];
    }
  }

  lemma GroupsTotal(rows: seq<GasRow>, unit: Measure)
    ensures var buckets := Buckets(rows);
            var consumer, other := ConsumerView(buckets), OtherLines(RolledUp(buckets));
            GroupSum(GroupsOf(buckets, consumer, other, GROUP_ORDER), unit) == Total(rows, unit)
  {
    var buckets := Buckets(rows);
    var consumer, other := ConsumerView(buckets), OtherLines(RolledUp(buckets));
    var t, on := GroupOf(buckets, consumer, other, Transaction), GroupOf(buckets, consumer, other, Onboarding);
    var op, d := GroupOf(buckets, consumer, other, Operations), GroupOf(buckets, consumer, other, Deployment);
    FourGroups(buckets, consumer, other);
    GroupSumAppend(t, on, unit);
    GroupSumAppend(t + on, op, unit);
    GroupSumAppend(t + on + op, d, unit);
    GroupTotal(rows, Transaction, unit);
    GroupTotal(rows, Onboarding, unit);
    GroupTotal(rows, Operations, unit);
    GroupTotal(rows, Deployment, unit);
    TotalByCategory(rows, unit);
  }

  lemma FourGroups(b: seq<Bucket>, consumer: seq<Line>, other: seq<Line>)
    ensures GroupsOf(b, consumer, other, GROUP_ORDER)
         == GroupOf(b, consumer, other, Transaction) + GroupOf(b, consumer, other, Onboarding)
            + GroupOf(b, consumer, other, Operations) + GroupOf(b, consumer, other, Deployment)
  {
    var o := GROUP_ORDER;
    assert o[..3] == [Transaction, Onboarding, Operations] && o[..3][..2] == [Transaction, Onboarding];
    assert o[..3][..2][..1] == [Transaction] && [Transaction][..0] == [];
    var t := GroupOf(b, consumer, other, Transaction);
    assert [] + t == t;
    assert GroupsOf(b, consumer, other, [Transaction]) == t;
    assert GroupsOf(b, consumer, other, o[..3][..2]) == t + GroupOf(b, consumer, other, Onboarding);
    assert GroupsOf(b, consumer, other, o[..3])
        == t + GroupOf(b, consumer, other, Onboarding) + GroupOf(b, consumer, other, Operations);
  }

  // ---- What the consumer lines count ----

  /** The session payments of the rows, by whether the sale was refunded or its fulfilment
      failed. */
  function Sessions(rows: seq<GasRow>, failed: bool): nat {
    if rows == [] then 0
    else
      var row := rows[|rows| - 1];
      Sessions(rows[..|rows| - 1], failed)
      + if row.category == Transaction
           && (row.source == "session" || row.source == "session_ok" || row.source == "session_fail")
           && failed == (row.saleStatus == Some("refunded") || row.fulfilment == Some("failed")) then 1 else 0
  }

  /** The transactions a source stands for; those of the relay count as the passkey's. */
  function Sourced(rows: seq<GasRow>, source: string): nat {
    if rows == [] then 0
    else
      var row := rows[|rows| - 1];
      Sourced(rows[..|rows| - 1], source)
      + if row.category == Transaction && (row.source == source || (row.source == "relay" && source == "passkey"))
        then 1 else 0
  }

  lemma {:induction false} SessionCosts(rows: seq<GasRow>)
    ensures |Costs(rows, Key(Transaction, "session_ok"))| == Sessions(rows, false)
    ensures |Costs(rows, Key(Transaction, "session_fail"))| == Sessions(rows, true)
  {
    assert "session_ok"[8] != "session_fail"[8];
    assert "passkey"[0] != 's' && "session_ok"[0] == 's' && "session_fail"[0] == 's';
    if rows != [] {
      SessionCosts(rows[..|rows| - 1]);
    }
  }

  lemma {:induction false} SourceCosts(rows: seq<GasRow>, source: string)
    requires !IsSession(source) && source != "relay"
    ensures |Costs(rows, Key(Transaction, source))| == Sourced(rows, source)
  {
    if rows != [] {
      SourceCosts(rows[..|rows| - 1], source);
    }
  }

  /** A bucket that is there has a row. */
  lemma {:induction false} BucketsHaveRows(rows: seq<GasRow>)
    ensures forall i :: 0 <= i < |Buckets(rows)| ==> |Buckets(rows)[i].rows| > 0
  {
    if rows != [] {
      BucketsHaveRows(rows[..|rows| - 1]);
      AddHasRow(Buckets(rows[..|rows| - 1]), rows[|rows| - 1]);
    }
  }

  lemma AddHasRow(buckets: seq<Bucket>, row: GasRow)
    requires forall i :: 0 <= i < |buckets| ==> |buckets[i].rows| > 0
    ensures forall i :: 0 <= i < |AddTo(buckets, row)| ==> |AddTo(buckets, row)[i].rows| > 0
  {
  }

  /** The two session lines count the payments that went through and those that did not, and
      are there as soon as there is a session payment. */
  lemma SessionCounts(rows: seq<GasRow>)
    ensures var lines := SessionLines(Buckets(rows));
            && (lines == [] <==> Sessions(rows, true) + Sessions(rows, false) == 0)
            && (lines != [] ==>
                  && |lines| == 2
                  && lines[0].source == Some("session_ok") && lines[0].count == Sessions(rows, false)
                  && lines[1].source == Some("session_fail") && lines[1].count == Sessions(rows, true))
  {
    SessionCosts(rows);
    BucketsHaveRows(rows);
    RowsAtCosts(rows, Key(Transaction, "session_ok"));
    RowsAtCosts(rows, Key(Transaction, "session_fail"));
  }

  /** A consumer line counts the rows of its source, relayed ones with the passkey's. */
  lemma ConsumerCounts(rows: seq<GasRow>, i: nat)
    requires i < |ConsumerLines(Buckets(rows))|
    ensures var line := ConsumerLines(Buckets(rows))[i];
            line.source.Some? && line.count == Sourced(rows, line.source.value)
  {
    var buckets := Buckets(rows);
    EveryRowInOneBucket(rows);
    var j := ConsumerLineIs(buckets, i);
    var b := buckets[j];
    assert Settled(b) && b.rows == Costs(rows, Key(Transaction, b.source));
    SourceCosts(rows, b.source);
  }

  lemma RowsAtCosts(rows: seq<GasRow>, key: Key)
    ensures RowsAt(Buckets(rows), key) == Costs(rows, key)
  {
    EveryRowInOneBucket(rows);
    if Find(Buckets(rows), key) == |Buckets(rows)| {
      UnseenKey(rows, Buckets(rows), key);
    }
  }

  lemma {:induction false} ConsumerLineIs(buckets: seq<Bucket>, i: nat) returns (j: nat)
    requires i < |ConsumerLines(buckets)|
    ensures j < |buckets| && buckets[j].category == Transaction && !IsSession(buckets[j].source)
    ensures ConsumerLines(buckets)[i] == LineOf(Transaction, Some(buckets[j].source), buckets[j].rows)
  {
    var n := |buckets| - 1;
    if i < |ConsumerLines(buckets[..n])| {
      j := ConsumerLineIs(buckets[..n], i);
    } else {
      j := n;
    }
  }

  // ---- The last cost of a group ----

  lemma {:induction false} InCosts(rows: seq<GasRow>, key: Key, c: Cost)
    ensures c in Costs(rows, key) <==> exists i :: 0 <= i < |rows| && KeyOf(rows[i]) == key && rows[i].cost == c
  {
    if rows != [] {
      var n := |rows| - 1;
      InCosts(rows[..n], key, c);
      assert forall i :: 0 <= i < n ==> rows[..n][i] == rows[i];
      if c in Costs(rows, key) && !(KeyOf(rows[n]) == key && rows[n].cost == c) {
        var i :| 0 <= i < n && KeyOf(rows[..n][i]) == key && rows[..n][i].cost == c;
        assert KeyOf(rows[i]) == key && rows[i].cost == c;
      }
    }
  }

  lemma {:induction false} InCategory(buckets: seq<Bucket>, g: Category, c: Cost)
    ensures c in CategoryRows(buckets, g)
       <==> exists i :: 0 <= i < |buckets| && buckets[i].category == g && c in buckets[i].rows
  {
    if buckets != [] {
      var n := |buckets| - 1;
      InCategory(buckets[..n], g, c);
      assert forall i :: 0 <= i < n ==> buckets[..n][i] == buckets[i];
      if c in CategoryRows(buckets, g) && !(buckets[n].category == g && c in buckets[n].rows) {
        var i :| 0 <= i < n && buckets[..n][i].category == g && c in buckets[..n][i].rows;
        assert buckets[i].category == g && c in buckets[i].rows;
      }
    }
  }

  /** The buckets of a category hold the costs of its rows. */
  lemma CategoryHolds(rows: seq<GasRow>, g: Category, c: Cost)
    ensures c in CategoryRows(Buckets(rows), g)
       <==> exists i :: 0 <= i < |rows| && rows[i].category == g && rows[i].cost == c
  {
    var buckets := Buckets(rows);
    EveryRowInOneBucket(rows);
    InCategory(buckets, g, c);
    if c in CategoryRows(buckets, g) {
      var i :| 0 <= i < |buckets| && buckets[i].category == g && c in buckets[i].rows;
      InCosts(rows, Key(g, buckets[i].source), c);
    }
    forall i | 0 <= i < |rows| && rows[i].category == g && rows[i].cost == c
      ensures c in CategoryRows(buckets, g) {
      var at := Find(buckets, KeyOf(rows[i]));
      InCosts(rows, KeyOf(rows[i]), c);
      assert buckets[at].category == g && c in buckets[at].rows;
    }
  }

  lemma {:induction false} RolledIsCategory(buckets: seq<Bucket>, g: Category)
    requires g != Transaction
    ensures RolledRows(RolledUp(buckets), g) == CategoryRows(buckets, g)
  {
    if buckets != [] {
      var n := |buckets| - 1;
      RolledIsCategory(buckets[..n], g);
      if buckets[n].category != Transaction {
        RollOne(RolledUp(buckets[..n]), buckets[n], g);
      }
    }
  }

  lemma RollOne(rolled: seq<Rolled>, b: Bucket, g: Category)
    ensures RolledRows(Roll(rolled, b), g) == if b.category == g then RolledRows(rolled, g) + b.rows
                                              else RolledRows(rolled, g)
  {
    var i := FindRolled(rolled, b.category);
    if i < |rolled| {
      RollFound(rolled, i, b.rows, g);
    } else {
      RollAdded(rolled, b, g);
      if b.category == g {
        NothingBefore(RolledRows(rolled, g), b.rows);
      }
    }
  }

  lemma NothingBefore(none: seq<Cost>, costs: seq<Cost>)
    requires |none| == 0
    ensures none + costs == costs
  {
  }

  lemma RollAdded(rolled: seq<Rolled>, b: Bucket, g: Category)
    requires FindRolled(rolled, b.category) == |rolled|
    ensures RolledRows(rolled + [Rolled(b.category, b.rows)], g)
         == if b.category == g then b.rows else RolledRows(rolled, g)
  {
    FoundAdded(rolled, Rolled(b.category, b.rows), g);
  }

  lemma RollFound(rolled: seq<Rolled>, i: nat, more: seq<Cost>, g: Category)
    requires i < |rolled| && i == FindRolled(rolled, rolled[i].category)
    ensures RolledRows(rolled[i := Rolled(rolled[i].category, rolled[i].rows + more)], g)
         == if rolled[i].category == g then RolledRows(rolled, g) + more else RolledRows(rolled, g)
  {
    var next := rolled[i := Rolled(rolled[i].category, rolled[i].rows + more)];
    SameFound(rolled, next, g);
  }

  lemma SameFound(a: seq<Rolled>, b: seq<Rolled>, g: Category)
    requires |a| == |b| && forall i :: 0 <= i < |a| ==> a[i].category == b[i].category
    ensures FindRolled(a, g) == FindRolled(b, g)
  {
    var i, j := FindRolled(a, g), FindRolled(b, g);
    assert i < |a| ==> b[i].category == g;
    assert j < |b| ==> a[j].category == g;
  }

  lemma FoundAdded(a: seq<Rolled>, r: Rolled, g: Category)
    ensures FindRolled(a + [r], g) == if FindRolled(a, g) == |a| && r.category != g then |a| + 1 else FindRolled(a, g)
  {
    assert (a + [r])[..|a|] == a;
  }

  lemma {:induction false} LatestIs(costs: seq<Cost>)
    ensures Latest(costs).None? <==> costs == []
    ensures Latest(costs).Some? ==>
              Latest(costs).value in costs && forall c :: c in costs ==> c.at <= Latest(costs).value.at
  {
    if costs != [] {
      var n := |costs| - 1;
      LatestIs(costs[..n]);
      assert forall c :: c in costs ==> c in costs[..n] || c == costs[n];
    }
  }

  ghost predicate NoneLater(rows: seq<GasRow>, g: Category, at: nat) {
    forall j :: 0 <= j < |rows| && rows[j].category == g ==> rows[j].cost.at <= at
  }

  ghost predicate HasRow(rows: seq<GasRow>, g: Category) {
    exists i :: 0 <= i < |rows| && rows[i].category == g
  }

  /** The cost of a most recent row of the category; none exactly when it has no row. */
  ghost predicate IsLast(rows: seq<GasRow>, g: Category, last: Option<nat>) {
    && (last.Some? <==> HasRow(rows, g))
    && (last.Some? ==> exists i :: 0 <= i < |rows| && rows[i].category == g && rows[i].cost.wei == last.value
                                   && NoneLater(rows, g, rows[i].cost.at))
  }

  lemma CategoryLast(rows: seq<GasRow>, g: Category)
    ensures IsLast(rows, g, LineOf(g, None, CategoryRows(Buckets(rows), g)).last)
  {
    var costs := CategoryRows(Buckets(rows), g);
    LatestIs(costs);
    forall i | 0 <= i < |rows| && rows[i].category == g ensures rows[i].cost in costs {
      CategoryHolds(rows, g, rows[i].cost);
    }
    if Latest(costs).Some? {
      CategoryHolds(rows, g, Latest(costs).value);
      var i :| 0 <= i < |rows| && rows[i].category == g && rows[i].cost == Latest(costs).value;
      assert NoneLater(rows, g, rows[i].cost.at);
    }
  }

  ghost predicate AllLast(rows: seq<GasRow>, groups: seq<Group>) {
    forall i :: 0 <= i < |groups| ==> IsLast(rows, groups[i].category, groups[i].last)
  }

  lemma GroupOfLast(rows: seq<GasRow>, consumer: seq<Line>, other: seq<Line>, g: Category)
    ensures var group := GroupOf(Buckets(rows), consumer, other, g);
            AllLast(rows, group) && forall i :: 0 <= i < |group| ==> group[i].category == g
  {
    CategoryLast(rows, g);
    if g != Transaction {
      RolledIsCategory(Buckets(rows), g);
    }
  }

  /** Every group of a report shows the cost of a most recent row of its category. */
  lemma {:induction false} GroupLast(rows: seq<GasRow>, consumer: seq<Line>, other: seq<Line>, order: seq<Category>)
    ensures AllLast(rows, GroupsOf(Buckets(rows), consumer, other, order))
  {
    if order != [] {
      var n := |order| - 1;
      var init, group := GroupsOf(Buckets(rows), consumer, other, order[..n]),
                         GroupOf(Buckets(rows), consumer, other, order[n]);
      GroupLast(rows, consumer, other, order[..n]);
      GroupOfLast(rows, consumer, other, order[n]);
      LastJoined(rows, init, group);
    }
  }

  lemma LastJoined(rows: seq<GasRow>, a: seq<Group>, b: seq<Group>)
    requires AllLast(rows, a) && AllLast(rows, b)
    ensures AllLast(rows, a + b)
  {
  }

  // ---- The report ----

  /** The cost of all rows. */
  function WeiOf(rows: seq<GasRow>): nat {
    if rows == [] then 0 else WeiOf(rows[..|rows| - 1]) + rows[|rows| - 1].cost.wei
  }

  /** What the totals measure: how many rows there are and what they cost. */
  lemma {:induction false} TotalsAre(rows: seq<GasRow>)
    ensures Total(rows, Count) == |rows| && Total(rows, Wei) == WeiOf(rows)
  {
    if rows != [] {
      TotalsAre(rows[..|rows| - 1]);
      OneAmount([rows[|rows| - 1].cost]);
    }
  }

  lemma OneAmount(costs: seq<Cost>)
    requires |costs| == 1
    ensures Amount(costs, Wei) == costs[0].wei && Amount(costs, Count) == 1
  {
    assert Amount(costs[..0], Wei) == 0;
  }

  datatype Report = Report(byCategory: seq<Line>, byGroup: seq<Group>, bySource: seq<Line>)

  /** All three views of a report add up to its rows, and two of them category by category;
      a group shows its category's rows, so the third does too. */
  ghost predicate AddsUp(rows: seq<GasRow>, report: Report, unit: Measure) {
    && Sum(report.byCategory, unit) == Total(rows, unit)
    && Sum(report.bySource, unit) == Total(rows, unit)
    && GroupSum(report.byGroup, unit) == Total(rows, unit)
    && (forall g :: LinesIn(report.byCategory, g, unit) == RowsIn(rows, g, unit))
    && (forall g :: LinesIn(report.bySource, g, unit) == RowsIn(rows, g, unit))
  }

  function ReportOf(buckets: seq<Bucket>): Report {
    Report(ByCategory(buckets),
           GroupsOf(buckets, ConsumerView(buckets), OtherLines(RolledUp(buckets)), GROUP_ORDER),
           SourceLines(buckets))
  }

  lemma {:induction false} ReportIsPartition(rows: seq<GasRow>, unit: Measure)
    ensures AddsUp(rows, ReportOf(Buckets(rows)), unit)
  {
    var buckets := Buckets(rows);
    forall g
      ensures LinesIn(ByCategory(buckets), g, unit) == RowsIn(rows, g, unit)
      ensures LinesIn(SourceLines(buckets), g, unit) == RowsIn(rows, g, unit)
    {
      CategoryTotals(rows, g, unit);
      SourceTotals(buckets, g, unit);
      BucketTotals(rows, g, unit);
    }
    SumIsTotal(ByCategory(buckets), rows, unit);
    SumIsTotal(SourceLines(buckets), rows, unit);
    GroupsTotal(rows, unit);
  }

  lemma SumIsTotal(lines: seq<Line>, rows: seq<GasRow>, unit: Measure)
    requires forall g :: LinesIn(lines, g, unit) == RowsIn(rows, g, unit)
    ensures Sum(lines, unit) == Total(rows, unit)
  {
    FourCategories(lines, unit);
    TotalByCategory(rows, unit);
  }

  // ---- The join with sales ----

  /** A recorded gas cost and the sales that name its transaction. */
  datatype Charge = Charge(source: string, category: Category, cost: Cost, sales: seq<(Option<string>, Option<string>)>)

  function JoinOne(c: Charge, n: nat): seq<GasRow>
    requires n <= |c.sales|
  {
    if |c.sales| == 0 then [GasRow(c.source, c.category, c.cost, None, None)]
    else if n == 0 then []
    else JoinOne(c, n - 1) + [GasRow(c.source, c.category, c.cost, c.sales[n - 1].0, c.sales[n - 1].1)]
  }

  function Join(charges: seq<Charge>): seq<GasRow> {
    if charges == [] then []
    else Join(charges[..|charges| - 1]) + JoinOne(charges[|charges| - 1], |charges[|charges| - 1].sales|)
  }

  lemma {:induction false} JoinOneLength(c: Charge, n: nat)
    requires n <= |c.sales|
    ensures |JoinOne(c, n)| == if |c.sales| == 0 then 1 else n
  {
    if |c.sales| > 0 && n > 0 {
      JoinOneLength(c, n - 1);
    }
  }

  ghost predicate OneSaleEach(charges: seq<Charge>) {
    forall i :: 0 <= i < |charges| ==> |charges[i].sales| <= 1
  }

  lemma OneSaleLast(charges: seq<Charge>)
    requires charges != []
    ensures OneSaleEach(charges) <==> OneSaleEach(charges[..|charges| - 1]) && |charges[|charges| - 1].sales| <= 1
  {
    var init := charges[..|charges| - 1];
    if OneSaleEach(charges) {
      assert forall i :: 0 <= i < |init| ==> init[i] == charges[i];
    }
  }

  lemma {:induction false} JoinLength(charges: seq<Charge>)
    ensures |Join(charges)| >= |charges|
    ensures |Join(charges)| == |charges| <==> OneSaleEach(charges)
  {
    if charges != [] {
      var n := |charges| - 1;
      JoinLength(charges[..n]);
      JoinOneLength(charges[n], |charges[n].sales|);
      OneSaleLast(charges);
    }
  }

  /** The report counts at least as many rows as there are charges, and exactly as many as
      the header when no transaction pays for two sales. */
  lemma {:induction false} HeaderCountAgrees(charges: seq<Charge>)
    ensures Total(Join(charges), Count) >= |charges|
    ensures Total(Join(charges), Count) == |charges| <==> OneSaleEach(charges)
  {
    JoinLength(charges);
    TotalCount(Join(charges));
  }

  /** One transaction that pays for two sales: the header counts one and the report two. */
  lemma TwoSalesCountTwice(source: string, g: Category, cost: Cost)
    ensures var charges := [Charge(source, g, cost, [(None, None), (None, None)])];
            Total(Join(charges), Count) == 2 == |charges| + 1
  {
    var charges := [Charge(source, g, cost, [(None, None), (None, None)])];
    assert charges[..0] == [];
    JoinOneLength(charges[0], 2);
    TotalCount(Join(charges));
  }

  // ---- The loops ----

  /** The last cost is the one recorded latest, the later row when times are equal. */
  method AggregateCosts(rows: seq<Cost>) returns (count: nat, totalWei: nat, lastWei: Option<nat>)
    ensures count == |rows| && totalWei == Amount(rows, Wei)
    ensures lastWei.None? <==> rows == []
    ensures lastWei.Some? ==> exists i :: 0 <= i < |rows| && lastWei.value == rows[i].wei
                                          && (forall j :: 0 <= j < i ==> rows[j].at <= rows[i].at)
                                          && (forall j :: i < j < |rows| ==> rows[j].at < rows[i].at)
    ensures LineOf(Transaction, None, rows).last == lastWei
  {
    totalWei := 0;
    var latestAt: int, latestWei: nat := -1, 0;
    ghost var at := 0;
    for n := 0 to |rows|
      invariant totalWei == Amount(rows[..n], Wei)
      invariant latestAt == -1 <==> n == 0
      invariant latestAt >= 0 ==>
                  at < n && latestAt == rows[at].at && latestWei == rows[at].wei && IsLatest(rows[..n], at)
      invariant Latest(rows[..n]) == if latestAt < 0 then None else Some(Cost(latestWei, latestAt))
      invariant latestAt >= -1
    {
      assert rows[..n + 1][..n] == rows[..n];
      totalWei := totalWei + rows[n].wei;
      if rows[n].at >= latestAt {
        latestAt := rows[n].at;
        latestWei := rows[n].wei;
        at := n;
      }
    }
    assert rows[..|rows|] == rows;
    count := |rows|;
    lastWei := if latestAt >= 0 then Some(latestWei) else None;
  }

  ghost predicate IsLatest(rows: seq<Cost>, i: nat)
    requires i < |rows|
  {
    && (forall j :: 0 <= j < i ==> rows[j].at <= rows[i].at)
    && (forall j :: i < j < |rows| ==> rows[j].at < rows[i].at)
  }

  method BucketRows(rows: seq<GasRow>) returns (buckets: seq<Bucket>)
    ensures buckets == Buckets(rows) && Partitions(rows, buckets)
  {
    buckets := [];
    for n := 0 to |rows|
      invariant buckets == Buckets(rows[..n])
    {
      assert rows[..n + 1][..n] == rows[..n];
      var source := Classified(rows[n]);
      var i := Find(buckets, Key(rows[n].category, source));
      var b := if i < |buckets| then buckets[i] else Bucket(rows[n].category, source, []);
      b := b.(rows := b.rows + [rows[n].cost]);
      assert [] + [rows[n].cost] == [rows[n].cost];
      buckets := if i < |buckets| then buckets[i := b] else buckets + [b];
    }
    assert rows[..|rows|] == rows;
    EveryRowInOneBucket(rows);
  }

  method SplitBuckets(buckets: seq<Bucket>) returns (consumer: seq<Line>, rolled: seq<Rolled>)
    ensures consumer == ConsumerLines(buckets) && rolled == RolledUp(buckets)
  {
    consumer, rolled := [], [];
    for n := 0 to |buckets|
      invariant consumer == ConsumerLines(buckets[..n])
      invariant rolled == RolledUp(buckets[..n])
    {
      assert buckets[..n + 1][..n] == buckets[..n];
      assert consumer + [] == consumer;
      var b := buckets[n];
      if b.category == Transaction {
        if !IsSession(b.source) {
          consumer := consumer + [LineOf(Transaction, Some(b.source), b.rows)];
        }
      } else {
        rolled := Roll(rolled, b);
      }
    }
    assert buckets[..|buckets|] == buckets;
  }

  /** Each view adds up to the rows it was made from, in number and in cost, and each group
      shows the cost of a most recent row of its category. */
  method GetGasFeeTotals(rows: seq<GasRow>) returns (report: Report)
    ensures AddsUp(rows, report, Count) && AddsUp(rows, report, Wei)
    ensures AllLast(rows, report.byGroup)
  {
    var buckets := BucketRows(rows);
    var consumerRows, rolled := SplitBuckets(buckets);
    var consumer := consumerRows + SessionLines(buckets);
    var other := OtherLines(rolled);
    report := Report(consumer + other, GroupsOf(buckets, consumer, other, GROUP_ORDER), SourceLines(buckets));
    assert report == ReportOf(buckets);
    ReportIsPartition(rows, Count);
    ReportIsPartition(rows, Wei);
    GroupLast(rows, consumer, other, GROUP_ORDER);
  }
}
