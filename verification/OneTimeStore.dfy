/** The in-memory one-time stores: passkey challenges, sign-in nonces and prepared
    transfers or withdrawals. Expired entries are removed only when some later call
    happens to sweep. */
module OneTimeStore {
  import opened Wrappers

  datatype Entry<V> = Entry(value: V, expires: int)

  /** Issue sweeps and stores in one stretch; Put only stores, as prepared transfers and
      withdrawals do when they await after their sweep. Consume is verifyAndConsume or
      consumeChallenge: an entry that is missing or expired is deleted and refused; a live
      one is deleted only if the proof is valid. */
  datatype Op<K, V> =
    | Issue(key: K, value: V, ttl: nat)
    | Put(key: K, value: V, ttl: nat)
    | Clean
    | Look(key: K)
    | Consume(key: K, valid: bool)
    | Drop(key: K)

  datatype Timed<K, V> = Timed(op: Op<K, V>, now: int)

  function Swept<K, V>(m: map<K, Entry<V>>, now: int): map<K, Entry<V>> {
    map k | k in m && m[k].expires >= now :: m[k]
  }

  predicate Live<K, V>(m: map<K, Entry<V>>, key: K, now: int) {
    key in m && m[key].expires >= now
  }

  /** What a caller is told. */
  function Answer<K, V>(m: map<K, Entry<V>>, t: Timed<K, V>): Option<V> {
    match t.op
    case Look(k) => if Live(m, k, t.now) then Some(m[k].value) else None
    case Consume(k, valid) => if Live(m, k, t.now) && valid then Some(m[k].value) else None
    case _ => None
  }

  /** The store as written, sweeping now and then. */
  function Next<K, V>(m: map<K, Entry<V>>, t: Timed<K, V>): map<K, Entry<V>> {
    match t.op
    case Issue(k, v, ttl) => Swept(m, t.now)[k := Entry(v, t.now + ttl)]
    case Put(k, v, ttl) => m[k := Entry(v, t.now + ttl)]
    case Clean => Swept(m, t.now)
    case Look(_) => m
    case Consume(k, valid) => if Live(m, k, t.now) && !valid then m else m - {k}
    case Drop(k) => m - {k}
  }

  /** The store that never sweeps. */
  function NextUnswept<K, V>(m: map<K, Entry<V>>, t: Timed<K, V>): map<K, Entry<V>> {
    match t.op
    case Issue(k, v, ttl) => m[k := Entry(v, t.now + ttl)]
    case Clean => m
    case _ => Next(m, t)
  }

  function Exec<K, V>(ts: seq<Timed<K, V>>): map<K, Entry<V>> {
    if ts == [] then map[] else Next(Exec(ts[..|ts| - 1]), ts[|ts| - 1])
  }

  function ExecUnswept<K, V>(ts: seq<Timed<K, V>>): map<K, Entry<V>> {
    if ts == [] then map[] else NextUnswept(ExecUnswept(ts[..|ts| - 1]), ts[|ts| - 1])
  }

  ghost predicate Monotone<K, V>(ts: seq<Timed<K, V>>) {
    forall i, j :: 0 <= i < j < |ts| ==> ts[i].now <= ts[j].now
  }

  lemma {:induction false} SameLiveEntries<K, V>(ts: seq<Timed<K, V>>, now: int)
    requires Monotone(ts) && (ts != [] ==> ts[|ts| - 1].now <= now)
    ensures Swept(Exec(ts), now) == Swept(ExecUnswept(ts), now)
  {
    if ts != [] {
      var t := ts[|ts| - 1];
      var m, u := Exec(ts[..|ts| - 1]), ExecUnswept(ts[..|ts| - 1]);
      SameLiveEntries(ts[..|ts| - 1], t.now);
      SameAfter(m, u, t, now);
    }
  }

  /** The live entries of both stores agree on a key. */
  ghost predicate Agree<K, V>(m: map<K, Entry<V>>, u: map<K, Entry<V>>, k: K, now: int) {
    Live(m, k, now) == Live(u, k, now) && (Live(m, k, now) ==> m[k] == u[k])
  }

  lemma AgreeAfter<K, V>(m: map<K, Entry<V>>, u: map<K, Entry<V>>, t: Timed<K, V>, k: K, now: int)
    requires t.now <= now && Agree(m, u, k, t.now)
    ensures Agree(Next(m, t), NextUnswept(u, t), k, now)
  {
  }

  lemma SameAfter<K, V>(m: map<K, Entry<V>>, u: map<K, Entry<V>>, t: Timed<K, V>, now: int)
    requires t.now <= now
    requires Swept(m, t.now) == Swept(u, t.now)
    ensures Swept(Next(m, t), now) == Swept(NextUnswept(u, t), now)
  {
    var a, b := Next(m, t), NextUnswept(u, t);
    forall k ensures Agree(a, b, k, now) {
      SweptAgree(m, u, k, t.now);
      AgreeAfter(m, u, t, k, now);
    }
    forall k ensures k in Swept(a, now) <==> k in Swept(b, now)
             ensures k in Swept(a, now) ==> Swept(a, now)[k] == Swept(b, now)[k] {
      assert Agree(a, b, k, now);
    }
  }

  lemma SweptAgree<K, V>(m: map<K, Entry<V>>, u: map<K, Entry<V>>, k: K, now: int)
    requires Swept(m, now) == Swept(u, now)
    ensures Agree(m, u, k, now)
  {
    assert Live(m, k, now) <==> k in Swept(m, now);
    assert Live(u, k, now) <==> k in Swept(u, now);
    assert Live(m, k, now) ==> m[k] == Swept(m, now)[k] == Swept(u, now)[k] == u[k];
  }

  /** With a clock that never goes back, no caller can tell the two stores apart. */
  lemma LazyExpiryInvisible<K, V>(ts: seq<Timed<K, V>>, i: nat)
    requires (forall j, k :: 0 <= j < k < |ts| ==> ts[j].now <= ts[k].now) && i < |ts|
    ensures Answer(Exec(ts[..i]), ts[i]) == Answer(ExecUnswept(ts[..i]), ts[i])
  {
    assert Monotone(ts) && Monotone(ts[..i]);
    SameLiveEntries(ts[..i], ts[i].now);
    if ts[i].op.Look? || ts[i].op.Consume? {
      SweptAgree(Exec(ts[..i]), ExecUnswept(ts[..i]), ts[i].op.key, ts[i].now);
    }
  }

  predicate Stores<K(==), V>(op: Op<K, V>, key: K) {
    (op.Issue? || op.Put?) && op.key == key
  }

  /** Since the key was last stored, some issue or clean ran past the expiry of its entry. */
  ghost predicate SweptOut<K, V>(ts: seq<Timed<K, V>>, key: K) {
    ts != []
    && var t, u := ts[|ts| - 1], ExecUnswept(ts[..|ts| - 1]);
    && !Stores(t.op, key)
    && (SweptOut(ts[..|ts| - 1], key)
        || ((t.op.Issue? || t.op.Clean?) && key in u && u[key].expires < t.now))
  }

  /** The store as written holds the entries of the one that never sweeps, less those
      swept out. */
  lemma {:induction false} HoldsUnlessSweptOut<K, V>(ts: seq<Timed<K, V>>, key: K)
    ensures key in Exec(ts) <==> key in ExecUnswept(ts) && !SweptOut(ts, key)
    ensures key in Exec(ts) ==> Exec(ts)[key] == ExecUnswept(ts)[key]
  {
    if ts != [] {
      HoldsUnlessSweptOut(ts[..|ts| - 1], key);
    }
  }

  /** The key an operation asks to be shown or to spend. */
  function Asked<K, V>(op: Op<K, V>): Option<K> {
    match op
    case Look(k) => Some(k)
    case Consume(k, valid) => if valid then Some(k) else None
    case _ => None
  }

  /** Whatever the clock does, a caller can tell the two stores apart exactly when asking
      for a key that is live in the one that never sweeps and has been swept out. */
  lemma SweepVisibleIff<K, V>(ts: seq<Timed<K, V>>, i: nat)
    requires i < |ts|
    ensures Answer(Exec(ts[..i]), ts[i]) != Answer(ExecUnswept(ts[..i]), ts[i])
       <==> Asked(ts[i].op).Some?
            && Live(ExecUnswept(ts[..i]), Asked(ts[i].op).value, ts[i].now)
            && SweptOut(ts[..i], Asked(ts[i].op).value)
  {
    if Asked(ts[i].op).Some? {
      HoldsUnlessSweptOut(ts[..i], Asked(ts[i].op).value);
    }
  }

  function SetBack(v: int): seq<Timed<string, int>> {
    [Timed(Issue("k", v, 5), 0), Timed(Clean, 10), Timed(Consume("k", true), 3)]
  }

  /** Such a run: a clock set back after a clean. */
  lemma ClockSetBack(v: int)
    ensures !Monotone(SetBack(v))
    ensures Answer(Exec(SetBack(v)[..2]), SetBack(v)[2]) == None
    ensures Answer(ExecUnswept(SetBack(v)[..2]), SetBack(v)[2]) == Some(v)
  {
    var ts := SetBack(v);
    assert ts[1].now > ts[2].now;
    assert ts[..2][..1] == ts[..1] && ts[..1][..0] == [];
    assert ExecUnswept<string, int>([]) == map[];
    assert ExecUnswept(ts[..1]) == map["k" := Entry(v, 5)];
    assert ExecUnswept(ts[..2]) == ExecUnswept(ts[..1]);
    assert SweptOut(ts[..2], "k");
    HoldsUnlessSweptOut(ts[..2], "k");
  }

  /** How long a stored entry lasts: from its storing, with or without a sweep, it is shown and
      can be spent up to and including its last moment and not after it, spent once, and kept
      when the proof is not valid. */
  lemma EntryLasts<K, V>(m: map<K, Entry<V>>, k: K, v: V, ttl: nat, at: int, later: int, sweeping: bool)
    ensures var n := Next(m, Timed(if sweeping then Issue(k, v, ttl) else Put(k, v, ttl), at));
            var shown := if later <= at + ttl then Some(v) else None;
            && Answer(n, Timed(Look(k), later)) == shown && Next(n, Timed(Look(k), later)) == n
            && Answer(n, Timed(Consume(k, true), later)) == shown
            && Answer(n, Timed(Consume(k, false), later)) == None
            && k !in Next(n, Timed(Consume(k, true), later)) && k !in Next(n, Timed(Drop(k), later))
            && (k in Next(n, Timed(Consume(k, false), later)) <==> later <= at + ttl)
            && (k in Next(n, Timed(Clean, later)) <==> later <= at + ttl)
  {
  }

  /** What an operation does to the entries of other keys: sweeping drops the expired ones,
      and nothing else is touched. */
  lemma OthersKept<K, V>(m: map<K, Entry<V>>, t: Timed<K, V>, k: K)
    requires k in m && (t.op.Clean? || t.op.key != k)
    ensures var sweeps := t.op.Issue? || t.op.Clean?;
            && (k in Next(m, t) <==> !sweeps || t.now <= m[k].expires)
            && (k in Next(m, t) ==> Next(m, t)[k] == m[k])
  {
  }

  ghost function Issues<K, V>(ts: seq<Timed<K, V>>, key: K): nat {
    if ts == [] then 0
    else Issues(ts[..|ts| - 1], key)
         + if Stores(ts[|ts| - 1].op, key) then 1 else 0
  }

  ghost function Accepts<K, V>(ts: seq<Timed<K, V>>, key: K): nat {
    if ts == [] then 0
    else Accepts(ts[..|ts| - 1], key)
         + var t := ts[|ts| - 1];
           if t.op.Consume? && t.op.key == key && Answer(Exec(ts[..|ts| - 1]), t).Some? then 1 else 0
  }

  /** Whatever the clock does, a key is accepted at most once per time it is stored; while
      it is still in the store, one time is unspent. */
  lemma {:induction false} AcceptedOncePerIssue<K, V>(ts: seq<Timed<K, V>>, key: K)
    ensures Accepts(ts, key) + (if key in Exec(ts) then 1 else 0) <= Issues(ts, key)
  {
    if ts != [] {
      AcceptedOncePerIssue(ts[..|ts| - 1], key);
    }
  }

  lemma CountsOne<K, V>(ts: seq<Timed<K, V>>, t: Timed<K, V>, key: K)
    ensures Issues(ts + [t], key) == Issues(ts, key) + if (t.op.Issue? || t.op.Put?) && t.op.key == key then 1 else 0
    ensures Accepts(ts + [t], key)
         == Accepts(ts, key)
            + if t.op == Consume(key, true) && Answer(Exec(ts), t).Some? then 1 else 0
    ensures Exec(ts + [t]) == Next(Exec(ts), t)
  {
    assert (ts + [t])[..|ts|] == ts;
  }

  /** After any run, a key that is stored and then presented with a valid proof in time is
      accepted once more than before, and presented again it is not: the bound is reached. */
  lemma AcceptedInTime<K, V>(ts: seq<Timed<K, V>>, key: K, v: V, ttl: nat, at: int, later: int, again: int)
    requires later <= at + ttl
    ensures var stored := ts + [Timed(Put(key, v, ttl), at)];
            var spent := stored + [Timed(Consume(key, true), later)];
            && Issues(spent, key) == Issues(ts, key) + 1
            && Accepts(spent, key) == Accepts(ts, key) + 1
            && Accepts(spent + [Timed(Consume(key, true), again)], key) == Accepts(ts, key) + 1
  {
    var stored := ts + [Timed(Put(key, v, ttl), at)];
    var spent := stored + [Timed(Consume(key, true), later)];
    CountsOne(ts, Timed(Put(key, v, ttl), at), key);
    CountsOne(stored, Timed(Consume(key, true), later), key);
    CountsOne(spent, Timed(Consume(key, true), again), key);
    EntryLasts(Exec(ts), key, v, ttl, at, later, false);
    assert key !in Exec(spent);
  }

  class ExpiringMap<K(==), V> {
    var entries: map<K, Entry<V>>

    constructor ()
      ensures entries == map[]
    {
      entries := map[];
    }

    method SweepExpired(now: int)
      modifies this
      ensures entries == Next(old(entries), Timed(Clean, now))
    {
      var todo := entries.Keys;
      while todo != {}
        invariant todo <= entries.Keys
        invariant Swept(entries, now) == Swept(old(entries), now)
        invariant forall k :: k in entries && k !in todo ==> entries[k].expires >= now
        decreases |todo|
      {
        var k :| k in todo;
        todo := todo - {k};
        if entries[k].expires < now {
          ghost var before := entries;
          entries := entries - {k};
          assert forall j :: j in Swept(before, now) <==> j in Swept(entries, now);
        }
      }
      assert Swept(entries, now) == entries;
    }

    /** newChallenge, registerChallenge, issueNonce and the prepares that sweep last. */
    method IssueEntry(key: K, value: V, ttl: nat, now: int)
      modifies this
      ensures entries == Next(old(entries), Timed(Issue(key, value, ttl), now))
    {
      SweepExpired(now);
      entries := entries[key := Entry(value, now + ttl)];
    }

    /** The prepares that await between their sweep and this write. */
    method PutEntry(key: K, value: V, ttl: nat, now: int)
      modifies this
      ensures entries == Next(old(entries), Timed(Put(key, value, ttl), now))
    {
      entries := entries[key := Entry(value, now + ttl)];
    }

    method LookUp(key: K, now: int) returns (r: Option<V>)
      ensures r == Answer(entries, Timed(Look(key), now))
    {
      if key !in entries || entries[key].expires < now {
        return None;
      }
      return Some(entries[key].value);
    }

    /** consumeChallenge (valid is true) and verifyAndConsume. */
    method ConsumeEntry(key: K, valid: bool, now: int) returns (r: Option<V>)
      modifies this
      ensures r == Answer(old(entries), Timed(Consume(key, valid), now))
      ensures entries == Next(old(entries), Timed(Consume(key, valid), now))
    {
      if key !in entries || entries[key].expires < now {
        entries := entries - {key};
        return None;
      }
      if !valid {
        return None;
      }
      r := Some(entries[key].value);
      entries := entries - {key};
    }

    method Delete(key: K)
      modifies this
      ensures entries == Next(old(entries), Timed(Drop(key), 0))
    {
      entries := entries - {key};
    }
  }
}
