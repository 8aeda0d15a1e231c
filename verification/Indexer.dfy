/** indexerService.ts: the chunked, restartable projection of chain logs into a table. */
module Indexer {
  import opened Sums
  import opened Wrappers

  datatype Key = Key(tx: nat, index: nat)

  /** indexed says that the emitter is a target and the log parses. */
  datatype Log = Log(key: Key, indexed: bool)

  /** What the node reports: a head, and the logs of each block up to it. */
  datatype Chain = Chain(head: int, blocks: map<int, seq<Log>>)

  function BlockLogs(c: Chain, b: int): seq<Log> {
    if b in c.blocks then c.blocks[b] else []
  }

  /** eth_getLogs over blocks from+1 to upto, in chain order. */
  function LogsBetween(c: Chain, from: int, upto: int): seq<Log>
    decreases upto - from
  {
    if upto <= from then [] else LogsBetween(c, from, upto - 1) + BlockLogs(c, upto)
  }

  function Indexed(logs: seq<Log>): seq<Log> {
    if logs == [] then []
    else Indexed(logs[..|logs| - 1]) + if logs[|logs| - 1].indexed then [logs[|logs| - 1]] else []
  }

  /** What the table should hold for blocks from+1 to upto. */
  function Projection(c: Chain, from: int, upto: int): seq<Log> {
    Indexed(LogsBetween(c, from, upto))
  }

  predicate HasKey(table: seq<Log>, k: Key) {
    exists i :: 0 <= i < |table| && table[i].key == k
  }

  /** INSERT ... ON CONFLICT (tx_hash, log_index) DO NOTHING. */
  function Insert(table: seq<Log>, l: Log): seq<Log> {
    if HasKey(table, l.key) then table else table + [l]
  }

  ghost predicate UniqueKeys(logs: seq<Log>) {
    forall i, j :: 0 <= i < j < |logs| ==> logs[i].key != logs[j].key
  }

  /** One more log keeps the keys unique exactly when its key is new. */
  lemma UniqueKeysIff(logs: seq<Log>, l: Log)
    ensures UniqueKeys([])
    ensures UniqueKeys(logs + [l]) <==> UniqueKeys(logs) && forall i :: 0 <= i < |logs| ==> logs[i].key != l.key
  {
    var more := logs + [l];
    if UniqueKeys(more) {
      forall i | 0 <= i < |logs| ensures logs[i].key != l.key {
        assert more[i] == logs[i] && more[|logs|] == l;
      }
      forall i, j | 0 <= i < j < |logs| ensures logs[i].key != logs[j].key {
        assert more[i] == logs[i] && more[j] == logs[j];
      }
    }
  }

  // ---- Sequences of logs ----

  lemma {:induction false} IndexedAppend(a: seq<Log>, b: seq<Log>)
    ensures Indexed(a + b) == Indexed(a) + Indexed(b)
  {
    if b == [] {
      assert a + b == a;
    } else {
      assert (a + b)[..|a + b| - 1] == a + b[..|b| - 1];
      IndexedAppend(a, b[..|b| - 1]);
    }
  }

  lemma {:induction false} LogsSplit(c: Chain, from: int, mid: int, upto: int)
    requires from <= mid <= upto
    ensures LogsBetween(c, from, upto) == LogsBetween(c, from, mid) + LogsBetween(c, mid, upto)
    decreases upto - mid
  {
    if mid < upto {
      LogsSplit(c, from, mid, upto - 1);
    }
  }

  lemma ProjectionSplit(c: Chain, from: int, mid: int, upto: int)
    requires from <= mid <= upto
    ensures Projection(c, from, upto) == Projection(c, from, mid) + Projection(c, mid, upto)
  {
    LogsSplit(c, from, mid, upto);
    IndexedAppend(LogsBetween(c, from, mid), LogsBetween(c, mid, upto));
  }

  lemma {:induction false} LogsAgree(c: Chain, d: Chain, from: int, upto: int)
    requires forall b :: b <= upto ==> BlockLogs(c, b) == BlockLogs(d, b)
    ensures LogsBetween(c, from, upto) == LogsBetween(d, from, upto)
    decreases upto - from
  {
    if from < upto {
      LogsAgree(c, d, from, upto - 1);
    }
  }

  // ---- The indexer over whole runs ----

  datatype Config = Config(chunk: nat, confirmations: nat)

  /** safe is the highest block ever observed as confirmed; start is where the cursor was
      initialised. */
  datatype Sys = Sys(chain: Chain, table: seq<Log>, cursor: int, start: int, safe: int)

  /** Blocks at or below the highest confirmed block are final, and their log keys are
      unique. */
  ghost predicate ChainOk(s: Sys) {
    UniqueKeys(Projection(s.chain, s.start, s.safe))
  }

  ghost predicate TableOk(s: Sys, cfg: Config) {
    var all := Projection(s.chain, s.start, s.safe);
    var done := |Projection(s.chain, s.start, s.cursor)|;
    var next := |Projection(s.chain, s.start, Min(s.cursor + cfg.chunk, s.safe))|;
    && s.start <= s.cursor
    && (s.cursor > s.safe ==> s.table == [] && s.cursor == s.start)
    && (s.cursor <= s.safe ==> done <= |s.table| <= next <= |all| && s.table == all[..|s.table|])
  }

  ghost predicate Inv(s: Sys, cfg: Config) {
    ChainOk(s) && TableOk(s, cfg)
  }

  /** The rest of one tick, as a function of how many more database writes the process
      lives to make: the inserts of a chunk, then the cursor update, chunk by chunk. */
  function Inserts(table: seq<Log>, logs: seq<Log>, writes: nat): (seq<Log>, nat)
    decreases |logs|
  {
    if logs == [] || writes == 0 then (table, writes)
    else if !logs[0].indexed then Inserts(table, logs[1..], writes)
    else Inserts(Insert(table, logs[0]), logs[1..], writes - 1)
  }

  datatype Tick = Tick(table: seq<Log>, cursor: int, writes: nat, queries: seq<(int, int)>)

  function Chunk(c: Chain, t: Tick, safe: int, chunk: nat): Tick {
    var to := Min(t.cursor + chunk, safe);
    var r := Inserts(t.table, LogsBetween(c, t.cursor, to), t.writes);
    if r.1 == 0 then Tick(r.0, t.cursor, 0, t.queries + [(t.cursor + 1, to)])
    else Tick(r.0, to, r.1 - 1, t.queries + [(t.cursor + 1, to)])
  }

  function Loop(c: Chain, t: Tick, safe: int, tickStart: int, chunk: nat): Tick
    requires chunk >= 1
    decreases safe - t.cursor, t.writes
  {
    if t.cursor >= safe || t.cursor - tickStart >= chunk * 25 || t.writes == 0 then t
    else
      var u := Chunk(c, t, safe, chunk);
      if u.cursor == t.cursor then u else Loop(c, u, safe, tickStart, chunk)
  }

  /** One poll. Nothing happens until a confirmed block lies above the cursor. */
  function RunTick(c: Chain, cfg: Config, table: seq<Log>, cursor: int, writes: nat): Tick
    requires cfg.chunk >= 1
  {
    var safe := c.head - cfg.confirmations;
    Loop(c, Tick(table, cursor, writes, []), safe, cursor, cfg.chunk)
  }

  datatype Event = NewChain(chain: Chain) | Poll(writes: nat)

  /** A reorganisation may rewrite anything above the highest confirmed block. */
  ghost predicate Allowed(s: Sys, e: Event, cfg: Config) {
    match e
    case NewChain(c) =>
      && (forall b :: b <= s.safe ==> BlockLogs(c, b) == BlockLogs(s.chain, b))
      && UniqueKeys(Projection(c, s.start, Max(s.safe, c.head - cfg.confirmations)))
    case Poll(_) => s.chain.head - cfg.confirmations <= s.safe
  }

  function Step(s: Sys, e: Event, cfg: Config): Sys
    requires cfg.chunk >= 1
  {
    match e
    case NewChain(c) => s.(chain := c, safe := Max(s.safe, c.head - cfg.confirmations))
    case Poll(writes) =>
      var t := RunTick(s.chain, cfg, s.table, s.cursor, writes);
      s.(table := t.table, cursor := t.cursor)
  }

  function Exec(s: Sys, es: seq<Event>, cfg: Config): Sys
    requires cfg.chunk >= 1
  {
    if es == [] then s else Step(Exec(s, es[..|es| - 1], cfg), es[|es| - 1], cfg)
  }

  ghost predicate AllAllowed(s: Sys, es: seq<Event>, cfg: Config)
    requires cfg.chunk >= 1
  {
    forall i :: 0 <= i < |es| ==> Allowed(Exec(s, es[..i], cfg), es[i], cfg)
  }

  // ---- Proof ----

  lemma IndexedHead(first: Log, rest: seq<Log>)
    ensures Indexed([first] + rest) == (if first.indexed then [first] else []) + Indexed(rest)
  {
    IndexedAppend([first], rest);
    assert [first][..0] == [];
  }

  /** Inserting log m of the sequence into its first n logs. */
  lemma InsertNext(all: seq<Log>, n: nat, m: nat)
    requires UniqueKeys(all) && m <= n <= |all| && m < |all|
    ensures Insert(all[..n], all[m]) == all[..Max(n, m + 1)]
  {
    if m < n {
      assert all[..n][m].key == all[m].key;
    }
  }

  /** Re-inserting logs the table already holds, and then new ones, extends it along the
      one sequence of final logs. */
  lemma {:induction false} InsertsExtend(all: seq<Log>, n: nat, logs: seq<Log>, m: nat, writes: nat) returns (n': nat)
    requires UniqueKeys(all) && m <= n <= |all|
    requires m + |Indexed(logs)| <= |all| && Indexed(logs) == all[m..m + |Indexed(logs)|]
    ensures n <= n' <= |all| && n' <= Max(n, m + |Indexed(logs)|)
    ensures Inserts(all[..n], logs, writes).0 == all[..n']
    ensures Inserts(all[..n], logs, writes).1 > 0 ==> n' == Max(n, m + |Indexed(logs)|)
    ensures Inserts(all[..n], logs, writes).1 <= writes
    decreases |logs|
  {
    n' := n;
    if logs != [] && writes != 0 {
      var first, rest := logs[0], logs[1..];
      assert logs == [first] + rest;
      IndexedHead(first, rest);
      if !first.indexed {
        assert Indexed(logs) == Indexed(rest);
        n' := InsertsExtend(all, n, rest, m, writes);
      } else {
        assert first == all[m..m + |Indexed(logs)|][0];
        assert Indexed(rest) == all[m..m + |Indexed(logs)|][1..];
        InsertNext(all, n, m);
        n' := InsertsExtend(all, Max(n, m + 1), rest, m + 1, writes - 1);
      }
    }
  }

  lemma PrefixGrows(c: Chain, start: int, a: int, b: int)
    requires start <= a <= b
    ensures |Projection(c, start, a)| <= |Projection(c, start, b)|
    ensures Projection(c, start, b)[..|Projection(c, start, a)|] == Projection(c, start, a)
  {
    ProjectionSplit(c, start, a, b);
  }

  /** The length of the projection of blocks start+1 to upto. */
  function Count(c: Chain, start: int, upto: int): nat {
    |Projection(c, start, upto)|
  }

  lemma ChunkTable(s: Sys, cfg: Config, safe: int, t: Tick) returns (n: nat)
    requires cfg.chunk >= 1 && safe <= s.safe && s.start <= t.cursor < safe && ChainOk(s)
    requires Count(s.chain, s.start, t.cursor) <= |t.table| <= Count(s.chain, s.start, s.safe)
    requires t.table == Projection(s.chain, s.start, s.safe)[..|t.table|]
    ensures var u := Chunk(s.chain, t, safe, cfg.chunk);
            var to := Min(t.cursor + cfg.chunk, safe);
            && |t.table| <= n <= Count(s.chain, s.start, s.safe)
            && n <= Max(|t.table|, Count(s.chain, s.start, to))
            && u.table == Projection(s.chain, s.start, s.safe)[..n]
            && (u.cursor == t.cursor || (u.cursor == to && Count(s.chain, s.start, to) <= n))
  {
    var to := Min(t.cursor + cfg.chunk, safe);
    var all := Projection(s.chain, s.start, s.safe);
    var m := Count(s.chain, s.start, t.cursor);
    var logs := LogsBetween(s.chain, t.cursor, to);
    ProjectionSplit(s.chain, s.start, t.cursor, to);
    PrefixGrows(s.chain, s.start, to, s.safe);
    var upToHere := Projection(s.chain, s.start, to);
    assert upToHere[m..] == Indexed(logs);
    assert all[m..m + |Indexed(logs)|] == upToHere[m..];
    n := InsertsExtend(all, |t.table|, logs, m, t.writes);
  }

  lemma CountGrows(c: Chain, start: int, a: int, b: int)
    requires start <= a <= b
    ensures Count(c, start, a) <= Count(c, start, b)
  {
    PrefixGrows(c, start, a, b);
  }

  /** The invariant holds of a table that begins the projection and reaches from the cursor
      to at most a chunk beyond it. */
  lemma BetweenIsOk(s: Sys, cfg: Config)
    requires cfg.chunk >= 1 && ChainOk(s) && s.start <= s.cursor <= s.safe
    requires s.table <= Projection(s.chain, s.start, s.safe)
    requires Count(s.chain, s.start, s.cursor) <= |s.table|
    requires |s.table| <= Count(s.chain, s.start, Min(s.cursor + cfg.chunk, s.safe))
    ensures Inv(s, cfg)
  {
    CountGrows(s.chain, s.start, Min(s.cursor + cfg.chunk, s.safe), s.safe);
  }

  lemma {:induction false} ChunkKeeps(s: Sys, cfg: Config, safe: int, t: Tick)
    requires cfg.chunk >= 1 && safe <= s.safe && t.cursor < safe
    requires Inv(s.(table := t.table, cursor := t.cursor), cfg)
    ensures var u := Chunk(s.chain, t, safe, cfg.chunk);
            Inv(s.(table := u.table, cursor := u.cursor), cfg)
  {
    var u := Chunk(s.chain, t, safe, cfg.chunk);
    var n := ChunkTable(s, cfg, safe, t);
    var to, oldNext := Min(t.cursor + cfg.chunk, safe), Min(t.cursor + cfg.chunk, s.safe);
    CountGrows(s.chain, s.start, to, oldNext);
    CountGrows(s.chain, s.start, oldNext, Min(u.cursor + cfg.chunk, s.safe));
    BetweenIsOk(s.(table := u.table, cursor := u.cursor), cfg);
  }

  lemma {:induction false} LoopKeeps(s: Sys, cfg: Config, safe: int, tickStart: int, t: Tick)
    requires cfg.chunk >= 1 && safe <= s.safe
    requires Inv(s.(table := t.table, cursor := t.cursor), cfg)
    ensures var u := Loop(s.chain, t, safe, tickStart, cfg.chunk);
            Inv(s.(table := u.table, cursor := u.cursor), cfg)
    decreases safe - t.cursor, t.writes
  {
    if !(t.cursor >= safe || t.cursor - tickStart >= cfg.chunk * 25 || t.writes == 0) {
      ChunkKeeps(s, cfg, safe, t);
      var u := Chunk(s.chain, t, safe, cfg.chunk);
      if u.cursor != t.cursor {
        LoopKeeps(s, cfg, safe, tickStart, u);
      }
    }
  }

  /** Blocks up to the confirmed one are the same on the new chain, so the old projection
      is the beginning of the new one. */
  lemma ConfirmedAgrees(s: Sys, c: Chain, safe: int, upto: int)
    requires forall b :: b <= s.safe ==> BlockLogs(c, b) == BlockLogs(s.chain, b)
    requires s.start <= upto <= s.safe <= safe
    ensures Projection(s.chain, s.start, upto) == Projection(c, s.start, upto)
    ensures Projection(c, s.start, upto) <= Projection(c, s.start, safe)
  {
    LogsAgree(s.chain, c, s.start, upto);
    PrefixGrows(c, s.start, upto, safe);
  }

  lemma NewChainTable(s: Sys, c: Chain, cfg: Config, safe: int)
    requires cfg.chunk >= 1 && Inv(s, cfg) && s.cursor <= s.safe <= safe
    requires forall b :: b <= s.safe ==> BlockLogs(c, b) == BlockLogs(s.chain, b)
    ensures s.table <= Projection(c, s.start, safe)
    ensures Count(c, s.start, s.cursor) <= |s.table| <= Count(c, s.start, Min(s.cursor + cfg.chunk, safe))
  {
    var next := Min(s.cursor + cfg.chunk, s.safe);
    ConfirmedAgrees(s, c, safe, s.cursor);
    ConfirmedAgrees(s, c, safe, next);
    ConfirmedAgrees(s, c, safe, s.safe);
    CountGrows(c, s.start, next, Min(s.cursor + cfg.chunk, safe));
    assert s.table <= Projection(s.chain, s.start, s.safe);
  }

  lemma NotReachedIsOk(s: Sys, cfg: Config)
    requires cfg.chunk >= 1 && ChainOk(s) && s.table == [] && s.cursor == s.start
    ensures Inv(s, cfg)
  {
    assert Projection(s.chain, s.start, s.start) == [];
    if s.cursor <= s.safe {
      BetweenIsOk(s, cfg);
    }
  }

  lemma NewChainKeeps(s: Sys, c: Chain, cfg: Config)
    requires cfg.chunk >= 1 && Inv(s, cfg) && Allowed(s, NewChain(c), cfg)
    ensures Inv(Step(s, NewChain(c), cfg), cfg)
  {
    var t := Step(s, NewChain(c), cfg);
    if s.cursor <= s.safe {
      NewChainTable(s, c, cfg, t.safe);
      BetweenIsOk(t, cfg);
    } else {
      NotReachedIsOk(t, cfg);
    }
  }

  lemma StepKeeps(s: Sys, e: Event, cfg: Config)
    requires cfg.chunk >= 1 && Inv(s, cfg) && Allowed(s, e, cfg)
    ensures Inv(Step(s, e, cfg), cfg)
  {
    if e.NewChain? {
      NewChainKeeps(s, e.chain, cfg);
    } else {
      var t := Tick(s.table, s.cursor, e.writes, []);
      assert s.(table := t.table, cursor := t.cursor) == s;
      LoopKeeps(s, cfg, s.chain.head - cfg.confirmations, s.cursor, t);
    }
  }

  lemma {:induction false} RunKeeps(s: Sys, es: seq<Event>, cfg: Config)
    requires cfg.chunk >= 1 && Inv(s, cfg) && AllAllowed(s, es, cfg)
    ensures Inv(Exec(s, es, cfg), cfg)
  {
    if es != [] {
      var init := es[..|es| - 1];
      assert forall i :: 0 <= i < |init| ==> init[..i] == es[..i] && init[i] == es[i];
      RunKeeps(s, init, cfg);
      assert Allowed(Exec(s, es[..|es| - 1], cfg), es[|es| - 1], cfg);
      StepKeeps(Exec(s, init, cfg), es[|es| - 1], cfg);
    }
  }

  lemma SplitPrefix<T>(all: seq<T>, done: seq<T>, rest: seq<T>, table: seq<T>)
    requires done + rest <= all && |done| <= |table| <= |done + rest| && table == all[..|table|]
    ensures table == done + table[|done|..] && table[|done|..] <= rest
  {
    assert table == (done + rest)[..|table|];
  }

  /** What the invariant says about the table. */
  lemma InvMeans(s: Sys, cfg: Config)
    requires cfg.chunk >= 1 && Inv(s, cfg) && s.cursor <= s.safe
    ensures var next := Projection(s.chain, s.cursor, Min(s.cursor + cfg.chunk, s.safe));
            var done := Projection(s.chain, s.start, s.cursor);
            && |done| <= |s.table| && s.table == done + s.table[|done|..] && s.table[|done|..] <= next
  {
    var upto := Min(s.cursor + cfg.chunk, s.safe);
    ProjectionSplit(s.chain, s.start, s.cursor, upto);
    PrefixGrows(s.chain, s.start, upto, s.safe);
    SplitPrefix(Projection(s.chain, s.start, s.safe), Projection(s.chain, s.start, s.cursor),
                Projection(s.chain, s.cursor, upto), s.table);
  }

  /** The indexed logs of blocks (start, cursor] and the first few of the next chunk. */
  ghost predicate Projects(s: Sys, cfg: Config) {
    var done := Projection(s.chain, s.start, s.cursor);
    && done <= s.table
    && s.table[|done|..] <= Projection(s.chain, s.cursor, Min(s.cursor + cfg.chunk, s.safe))
  }

  lemma InvProjects(s: Sys, cfg: Config)
    requires cfg.chunk >= 1 && Inv(s, cfg)
    ensures UniqueKeys(s.table)
    ensures if s.cursor > s.safe then s.table == [] else Projects(s, cfg)
  {
    if s.cursor <= s.safe {
      InvMeans(s, cfg);
    }
  }

  /** After any polls, crashes between any two database writes and reorganisations above
      the confirmed blocks: the table holds each log once, in chain order; it is exactly
      the indexed logs of blocks (start, cursor] followed by the first few of the next
      chunk, and holds nothing from above the confirmed blocks. */
  lemma TableIsProjection(chain: Chain, start: int, es: seq<Event>, cfg: Config)
    requires cfg.chunk >= 1
    requires var s := Sys(chain, [], start, start, chain.head - cfg.confirmations);
             UniqueKeys(Projection(chain, start, s.safe)) && AllAllowed(s, es, cfg)
    ensures var s := Exec(Sys(chain, [], start, start, chain.head - cfg.confirmations), es, cfg);
            && s.start == start
            && UniqueKeys(s.table)
            && if s.cursor > s.safe then s.table == [] else Projects(s, cfg)
  {
    var s0 := Sys(chain, [], start, start, chain.head - cfg.confirmations);
    RunTable(chain, start, es, cfg);
    InvProjects(Exec(s0, es, cfg), cfg);
  }

  lemma RunTable(chain: Chain, start: int, es: seq<Event>, cfg: Config)
    requires cfg.chunk >= 1
    requires var s := Sys(chain, [], start, start, chain.head - cfg.confirmations);
             UniqueKeys(Projection(chain, start, s.safe)) && AllAllowed(s, es, cfg)
    ensures var s := Exec(Sys(chain, [], start, start, chain.head - cfg.confirmations), es, cfg);
            s.start == start && Inv(s, cfg)
  {
    var s0 := Sys(chain, [], start, start, chain.head - cfg.confirmations);
    NotReachedIsOk(s0, cfg);
    RunKeeps(s0, es, cfg);
    StartKept(s0, es, cfg);
  }

  lemma {:induction false} StartKept(s: Sys, es: seq<Event>, cfg: Config)
    requires cfg.chunk >= 1
    ensures Exec(s, es, cfg).start == s.start
  {
    if es != [] {
      StartKept(s, es[..|es| - 1], cfg);
    }
  }

  // ---- The table, log by log ----

  lemma {:induction false} InIndexed(logs: seq<Log>, l: Log)
    ensures l in Indexed(logs) <==> l in logs && l.indexed
  {
    if logs != [] {
      var n := |logs| - 1;
      InIndexed(logs[..n], l);
      assert logs == logs[..n] + [logs[n]];
    }
  }

  /** The log is one of a block after from, up to and including upto. */
  ghost predicate Emitted(c: Chain, from: int, upto: int, l: Log) {
    exists b :: from < b <= upto && b in c.blocks && l in c.blocks[b]
  }

  lemma {:induction false} InLogs(c: Chain, from: int, upto: int, l: Log)
    ensures l in LogsBetween(c, from, upto) <==> Emitted(c, from, upto, l)
    decreases upto - from
  {
    if from < upto {
      InLogs(c, from, upto - 1, l);
    }
  }

  lemma InProjection(c: Chain, from: int, upto: int, l: Log)
    ensures l in Projection(c, from, upto) <==> l.indexed && Emitted(c, from, upto, l)
  {
    InIndexed(LogsBetween(c, from, upto), l);
    InLogs(c, from, upto, l);
  }

  lemma TableMember(s: Sys, cfg: Config, l: Log)
    requires cfg.chunk >= 1 && Inv(s, cfg)
    ensures l.indexed && Emitted(s.chain, s.start, s.cursor, l) && s.cursor <= s.safe ==> l in s.table
    ensures l in s.table ==> l.indexed && Emitted(s.chain, s.start, Min(s.cursor + cfg.chunk, s.safe), l)
  {
    if s.cursor <= s.safe {
      InvMeans(s, cfg);
      var done, upto := Projection(s.chain, s.start, s.cursor), Min(s.cursor + cfg.chunk, s.safe);
      InProjection(s.chain, s.start, s.cursor, l);
      InProjection(s.chain, s.start, upto, l);
      ProjectionSplit(s.chain, s.start, s.cursor, upto);
      Member(done, s.table[|done|..], Projection(s.chain, s.cursor, upto), l);
    }
  }

  lemma Member(done: seq<Log>, more: seq<Log>, next: seq<Log>, l: Log)
    requires more <= next
    ensures l in done ==> l in done + more
    ensures l in done + more ==> l in done + next
  {
  }

  /** The chain the node reports after the events. */
  function Reported(chain: Chain, es: seq<Event>): Chain {
    if es == [] then chain
    else if es[|es| - 1].NewChain? then es[|es| - 1].chain else Reported(chain, es[..|es| - 1])
  }

  /** The highest block that was ever confirmed in a chain the node reported. */
  function Confirmed(chain: Chain, es: seq<Event>, confirmations: nat): int {
    if es == [] then chain.head - confirmations
    else
      var before := Confirmed(chain, es[..|es| - 1], confirmations);
      if es[|es| - 1].NewChain? then Max(before, es[|es| - 1].chain.head - confirmations) else before
  }

  lemma {:induction false} ChainIsReported(chain: Chain, start: int, es: seq<Event>, cfg: Config)
    requires cfg.chunk >= 1
    ensures var s := Exec(Sys(chain, [], start, start, chain.head - cfg.confirmations), es, cfg);
            s.chain == Reported(chain, es) && s.safe == Confirmed(chain, es, cfg.confirmations)
  {
    if es != [] {
      ChainIsReported(chain, start, es[..|es| - 1], cfg);
    }
  }

  lemma NothingEmitted(c: Chain, from: int, l: Log)
    ensures !Emitted(c, from, from, l)
  {
  }

  /** The same in terms of blocks: no indexed log of a block past the start and up to the
      cursor is missing, and whatever the table holds is an indexed log of a confirmed block,
      at most one chunk past the cursor. */
  lemma TableHoldsBlocks(chain: Chain, start: int, es: seq<Event>, cfg: Config, l: Log)
    requires cfg.chunk >= 1
    requires var s := Sys(chain, [], start, start, chain.head - cfg.confirmations);
             UniqueKeys(Projection(chain, start, s.safe)) && AllAllowed(s, es, cfg)
    ensures var s := Exec(Sys(chain, [], start, start, chain.head - cfg.confirmations), es, cfg);
            var now, safe := Reported(chain, es), Confirmed(chain, es, cfg.confirmations);
            && (l.indexed && Emitted(now, start, s.cursor, l) ==> l in s.table)
            && (l in s.table ==> l.indexed && Emitted(now, start, Min(s.cursor + cfg.chunk, safe), l))
  {
    var s := Exec(Sys(chain, [], start, start, chain.head - cfg.confirmations), es, cfg);
    ChainIsReported(chain, start, es, cfg);
    RunTable(chain, start, es, cfg);
    TableMember(s, cfg, l);
    if s.cursor > s.safe {
      NothingEmitted(s.chain, start, l);
    }
  }

  // ---- Progress ----

  /** Ranges of at most chunk blocks each, starting after from, without gap or overlap. */
  ghost predicate Contiguous(queries: seq<(int, int)>, from: int, safe: int, chunk: nat) {
    && (queries != [] ==> queries[0].0 == from + 1)
    && (forall i :: 0 <= i < |queries| ==> queries[i].0 <= queries[i].1 < queries[i].0 + chunk && queries[i].1 <= safe)
    && (forall i, j :: 0 <= i < j == i + 1 < |queries| ==> queries[j].0 == queries[i].1 + 1)
  }

  /** At most 25 contiguous queries; a tick that survives has moved the cursor to the nearer
      of the confirmed head and 25 chunks on, with the fewest queries that cover it. */
  ghost predicate TickDone(u: Tick, cursor: int, safe: int, chunk: nat) {
    && |u.queries| <= 25 && Contiguous(u.queries, cursor, safe, chunk)
    && (u.writes > 0 ==>
          && u.cursor == Min(safe, cursor + chunk * 25)
          && (|u.queries| - 1) * chunk < u.cursor - cursor <= |u.queries| * chunk)
  }

  lemma InsertsSpend(table: seq<Log>, logs: seq<Log>, writes: nat)
    ensures Inserts(table, logs, writes).1 <= writes
    decreases |logs|
  {
    if logs != [] && writes != 0 {
      if logs[0].indexed {
        InsertsSpend(Insert(table, logs[0]), logs[1..], writes - 1);
      } else {
        InsertsSpend(table, logs[1..], writes);
      }
    }
  }

  /** One more query keeps the ranges contiguous. */
  lemma ChunkQueries(c: Chain, t: Tick, safe: int, tickStart: int, chunk: nat)
    requires chunk >= 1 && t.cursor < safe && Contiguous(t.queries, tickStart, safe, chunk)
    requires t.queries != [] ==> t.queries[|t.queries| - 1].1 == t.cursor
    requires t.queries == [] ==> t.cursor == tickStart
    ensures var u := Chunk(c, t, safe, chunk);
            && u.queries == t.queries + [(t.cursor + 1, Min(t.cursor + chunk, safe))]
            && Contiguous(u.queries, tickStart, safe, chunk)
            && (u.cursor != t.cursor ==> u.cursor == Min(t.cursor + chunk, safe))
            && (u.cursor == t.cursor ==> u.writes == 0)
            && u.writes <= t.writes
  {
    InsertsSpend(t.table, LogsBetween(c, t.cursor, Min(t.cursor + chunk, safe)), t.writes);
  }

  lemma {:induction false} LoopProgress(c: Chain, t: Tick, safe: int, tickStart: int, chunk: nat)
    requires chunk >= 1 && tickStart <= t.cursor <= safe
    requires |t.queries| <= 25 && Contiguous(t.queries, tickStart, safe, chunk)
    requires t.queries != [] ==> t.queries[|t.queries| - 1].1 == t.cursor
    requires t.queries == [] ==> t.cursor == tickStart
    requires t.cursor == Min(safe, tickStart + |t.queries| * chunk)
    requires t.cursor > tickStart + (|t.queries| - 1) * chunk
    ensures TickDone(Loop(c, t, safe, tickStart, chunk), tickStart, safe, chunk)
    decreases safe - t.cursor, t.writes
  {
    var k := |t.queries|;
    assert (k + 1) * chunk == k * chunk + chunk && (k - 1) * chunk == k * chunk - chunk;
    if t.cursor >= safe || t.cursor - tickStart >= chunk * 25 || t.writes == 0 {
      CapReached(k, chunk);
    } else {
      BelowCap(k, chunk);
      ChunkQueries(c, t, safe, tickStart, chunk);
      var u := Chunk(c, t, safe, chunk);
      if u.cursor != t.cursor {
        LoopProgress(c, u, safe, tickStart, chunk);
      }
    }
  }

  lemma CapReached(k: nat, chunk: nat)
    requires k <= 25 && chunk >= 1
    ensures k * chunk <= chunk * 25
  {
  }

  lemma BelowCap(k: nat, chunk: nat)
    ensures k >= 25 ==> k * chunk >= chunk * 25
  {
    if k >= 25 {
      assert (k - 25) * chunk >= 0;
    }
  }

  lemma LoopFromStart(c: Chain, table: seq<Log>, cursor: int, writes: nat, safe: int, chunk: nat)
    requires chunk >= 1 && cursor < safe
    ensures TickDone(Loop(c, Tick(table, cursor, writes, []), safe, cursor, chunk), cursor, safe, chunk)
  {
    var t := Tick(table, cursor, writes, []);
    NoQueriesYet(t, chunk);
    LoopProgress(c, t, safe, cursor, chunk);
  }

  lemma NothingToDo(c: Chain, t: Tick, safe: int, tickStart: int, chunk: nat)
    requires chunk >= 1 && t.cursor >= safe
    ensures Loop(c, t, safe, tickStart, chunk) == t
  {
  }

  /** A tick below the confirmed head does what a tick has to; above it, nothing. */
  lemma TickProgress(c: Chain, cfg: Config, table: seq<Log>, cursor: int, writes: nat)
    requires cfg.chunk >= 1
    ensures cursor >= c.head - cfg.confirmations ==>
              RunTick(c, cfg, table, cursor, writes) == Tick(table, cursor, writes, [])
    ensures cursor < c.head - cfg.confirmations ==>
              TickDone(RunTick(c, cfg, table, cursor, writes), cursor, c.head - cfg.confirmations, cfg.chunk)
  {
    var t, safe := Tick(table, cursor, writes, []), c.head - cfg.confirmations;
    assert RunTick(c, cfg, table, cursor, writes) == Loop(c, t, safe, cursor, cfg.chunk);
    if cursor < safe {
      LoopFromStart(c, table, cursor, writes, safe, cfg.chunk);
    } else {
      NothingToDo(c, t, safe, cursor, cfg.chunk);
    }
  }

  lemma TickMoves(s: Sys, writes: nat, cfg: Config)
    requires cfg.chunk >= 1 && s.cursor <= s.chain.head - cfg.confirmations
    requires RunTick(s.chain, cfg, s.table, s.cursor, writes).writes > 0
    ensures Step(s, Poll(writes), cfg).cursor == Min(s.chain.head - cfg.confirmations, s.cursor + cfg.chunk * 25)
    ensures Step(s, Poll(writes), cfg).chain == s.chain
  {
    TickProgress(s.chain, cfg, s.table, s.cursor, writes);
  }

  lemma NoQueriesYet(t: Tick, chunk: nat)
    requires t.queries == [] && chunk >= 1
    ensures |t.queries| * chunk == 0 && (|t.queries| - 1) * chunk < 0
  {
  }

  function Polls(s: Sys, ws: seq<nat>, cfg: Config): Sys
    requires cfg.chunk >= 1
  {
    if ws == [] then s else Step(Polls(s, ws[..|ws| - 1], cfg), Poll(ws[|ws| - 1]), cfg)
  }

  ghost predicate Survive(s: Sys, ws: seq<nat>, cfg: Config)
    requires cfg.chunk >= 1
  {
    forall i :: 0 <= i < |ws| ==>
      var p := Polls(s, ws[..i], cfg);
      RunTick(p.chain, cfg, p.table, p.cursor, ws[i]).writes > 0
  }

  lemma {:induction false} SurviveInit(s: Sys, ws: seq<nat>, cfg: Config)
    requires cfg.chunk >= 1 && ws != [] && Survive(s, ws, cfg)
    ensures var init, p := ws[..|ws| - 1], Polls(s, ws[..|ws| - 1], cfg);
            Survive(s, init, cfg) && RunTick(p.chain, cfg, p.table, p.cursor, ws[|ws| - 1]).writes > 0
  {
    var init := ws[..|ws| - 1];
    forall i | 0 <= i < |init|
      ensures var p := Polls(s, init[..i], cfg); RunTick(p.chain, cfg, p.table, p.cursor, init[i]).writes > 0
    {
      assert init[..i] == ws[..i];
      var p := Polls(s, ws[..i], cfg);
      assert RunTick(p.chain, cfg, p.table, p.cursor, ws[i]).writes > 0;
    }
  }

  lemma {:induction false} PollsReach(s: Sys, ws: seq<nat>, cfg: Config)
    requires cfg.chunk >= 1 && s.cursor <= s.chain.head - cfg.confirmations && Survive(s, ws, cfg)
    ensures Polls(s, ws, cfg).chain == s.chain
    ensures Polls(s, ws, cfg).cursor == Min(s.chain.head - cfg.confirmations, s.cursor + |ws| * (cfg.chunk * 25))
  {
    if ws != [] {
      var init := ws[..|ws| - 1];
      SurviveInit(s, ws, cfg);
      PollsReach(s, init, cfg);
      TickMoves(Polls(s, init, cfg), ws[|ws| - 1], cfg);
      Distribute(|init|, cfg.chunk * 25);
    } else {
      assert |ws| * (cfg.chunk * 25) == 0;
    }
  }

  /** With a fixed head n blocks ahead of the cursor, k surviving ticks catch up exactly
      when k times 25 chunks is at least n. */
  lemma {:induction false} CatchUp(s: Sys, ws: seq<nat>, cfg: Config)
    requires cfg.chunk >= 1 && s.cursor <= s.chain.head - cfg.confirmations
    requires Survive(s, ws, cfg)
    ensures var safe := s.chain.head - cfg.confirmations;
            && Polls(s, ws, cfg).chain == s.chain
            && Polls(s, ws, cfg).cursor == Min(safe, s.cursor + |ws| * (cfg.chunk * 25))
            && (Polls(s, ws, cfg).cursor == safe <==> |ws| * (cfg.chunk * 25) >= safe - s.cursor)
  {
    PollsReach(s, ws, cfg);
  }

  lemma Distribute(k: nat, cap: nat)
    ensures (k + 1) * cap == k * cap + cap && k * cap >= 0
  {
  }

  // ---- One tick at a time ----

  /** What the timer and the running tick do to the running flag; ticks counts the ticks
      in flight, which the program itself does not know. */
  datatype Signal = TimerFires | TickEnds

  datatype Poller = Poller(running: bool, ticks: nat)

  function Heard(p: Poller, e: Signal): Poller {
    match e
    case TimerFires => if p.running then p else Poller(true, p.ticks + 1)
    case TickEnds => if p.ticks == 0 then p else Poller(false, p.ticks - 1)
  }

  function HeardAll(es: seq<Signal>): Poller {
    if es == [] then Poller(false, 0) else Heard(HeardAll(es[..|es| - 1]), es[|es| - 1])
  }

  /** However often the timer fires, at most one tick is in flight, and the flag says
      whether there is one. */
  lemma {:induction false} OneTickInFlight(es: seq<Signal>)
    ensures HeardAll(es).ticks == if HeardAll(es).running then 1 else 0
  {
    if es != [] {
      OneTickInFlight(es[..|es| - 1]);
    }
  }

  /** A timer leaves a tick in flight, whether it started one or found one, and the end of a
      tick leaves none, so the next timer starts another. */
  lemma TimerStartsTick(es: seq<Signal>)
    ensures HeardAll(es + [TimerFires]).ticks == 1
    ensures HeardAll(es + [TickEnds]).ticks == 0
  {
    OneTickInFlight(es);
    assert (es + [TimerFires])[..|es|] == es && (es + [TickEnds])[..|es|] == es;
  }

  // ---- The loop as code ----

  class IndexerService {
    const cfg: Config
    var table: seq<Log>
    var stored: Option<int>
    var writes: nat

    constructor (cfg: Config, writes: nat)
      ensures this.cfg == cfg && table == [] && stored == None && this.writes == writes
    {
      this.cfg, table, stored, this.writes := cfg, [], None, writes;
    }

    method GetCursor(startBlock: Option<int>, head: int) returns (cursor: int)
      modifies this`stored
      ensures stored == Some(cursor)
      ensures old(stored).Some? ==> stored == old(stored)
      ensures old(stored).None? ==> cursor == if startBlock.Some? then startBlock.value else head
    {
      if stored.Some? {
        return stored.value;
      }
      cursor := if startBlock.Some? then startBlock.value else head;
      stored := Some(cursor);
    }

    /** The inserts of one chunk; the process may die among them. */
    method InsertLogs(logs: seq<Log>)
      modifies this`table, this`writes
      ensures (table, writes) == Inserts(old(table), logs, old(writes))
    {
      var j := 0;
      while j < |logs| && writes > 0
        invariant 0 <= j <= |logs|
        invariant Inserts(table, logs[j..], writes) == Inserts(old(table), logs, old(writes))
      {
        assert logs[j..][1..] == logs[j + 1..];
        if logs[j].indexed {
          table := Insert(table, logs[j]);
          writes := writes - 1;
        }
        j := j + 1;
      }
    }

    /** One pass of the loop: query, insert, then move the stored cursor. */
    method RunChunk(c: Chain, cursor: int, safe: int, done: seq<(int, int)>) returns (queries: seq<(int, int)>)
      requires stored == Some(cursor)
      modifies this
      ensures stored.Some?
      ensures Tick(table, stored.value, writes, queries)
           == Chunk(c, Tick(old(table), cursor, old(writes), done), safe, cfg.chunk)
      ensures cursor < safe && cfg.chunk >= 1 && writes > 0 ==> stored.value > cursor
    {
      var from := cursor + 1;
      var to := Min(from + cfg.chunk - 1, safe);
      var logs := LogsBetween(c, cursor, to);
      queries := done + [(from, to)];
      ghost var r := Inserts(table, logs, writes);
      assert to == Min(cursor + cfg.chunk, safe);
      InsertLogs(logs);
      assert (table, writes) == r;
      if writes > 0 {
        stored := Some(to);
        writes := writes - 1;
      }
    }

    method TickOnce(c: Chain, startBlock: Option<int>) returns (queries: seq<(int, int)>)
      requires cfg.chunk >= 1
      modifies this
      ensures stored.Some?
      ensures var from := if old(stored).Some? then old(stored).value
                          else if startBlock.Some? then startBlock.value else c.head;
              Tick(table, stored.value, writes, queries) == RunTick(c, cfg, old(table), from, old(writes))
    {
      var safe := c.head - cfg.confirmations;
      var tickStart := GetCursor(startBlock, c.head);
      queries := [];
      if safe <= tickStart {
        return;
      }
      var maxPerTick := cfg.chunk * 25;
      ghost var goal := RunTick(c, cfg, table, tickStart, writes);
      while stored.value < safe && stored.value - tickStart < maxPerTick && writes > 0
        invariant stored.Some?
        invariant Loop(c, Tick(table, stored.value, writes, queries), safe, tickStart, cfg.chunk) == goal
        decreases safe - stored.value, writes
      {
        queries := RunChunk(c, stored.value, safe, queries);
      }
    }
  }
}
