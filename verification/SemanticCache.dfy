/** The semantic cache: a dictionary in insertion order that evicts its first key, filled by `set`,
    by repopulation from Redis and by the one-time warm-up.  Every change of the dictionary is an
    atomic section (no await inside), so a run is a sequence of those sections in any order. */
module SemanticCaches {
  import opened Wrappers

  datatype Entry<V> = Entry(key: string, value: V, embedding: seq<real>, version: Option<string>)

  // ---------- the dictionary ----------

  ghost predicate Distinct<V>(es: seq<Entry<V>>) {
    forall i, j :: 0 <= i < j < |es| ==> es[i].key != es[j].key
  }

  /** Where `k` stands in insertion order; the length when it is absent. */
  function Position<V>(es: seq<Entry<V>>, k: string): (i: nat)
    ensures i <= |es|
    ensures i < |es| ==> es[i].key == k
    ensures forall j :: 0 <= j < i ==> es[j].key != k
  {
    if es == [] || es[0].key == k then 0 else 1 + Position(es[1..], k)
  }

  predicate Has<V>(es: seq<Entry<V>>, k: string) { Position(es, k) < |es| }

  lemma PositionIs<V>(es: seq<Entry<V>>, i: nat)
    requires Distinct(es) && i < |es|
    ensures Position(es, es[i].key) == i
  {
    var p := Position(es, es[i].key);
    if i < p { assert false; }
  }

  /** Eviction drops the first key of a full dictionary. */
  function Room<V>(es: seq<Entry<V>>, max: nat): seq<Entry<V>> {
    if |es| >= max && es != [] then es[1..] else es
  }

  /** Assigning a key of a dictionary keeps its place; a new key goes last. */
  function Assign<V>(es: seq<Entry<V>>, e: Entry<V>): seq<Entry<V>> {
    if Has(es, e.key) then es[Position(es, e.key) := e] else es + [e]
  }

  function Delete<V>(es: seq<Entry<V>>, k: string): seq<Entry<V>> {
    var i := Position(es, k);
    if i < |es| then es[..i] + es[i + 1..] else es
  }

  /** The atomic sections: insert after making room; make room only (a Redis record that lost its
      value raises after the eviction); delete; clear. */
  datatype Op<V> = Put(entry: Entry<V>) | MakeRoom | Remove(key: string) | Clear

  function Step<V>(es: seq<Entry<V>>, max: nat, op: Op<V>): seq<Entry<V>> {
    match op
    case Put(e) => Assign(Room(es, max), e)
    case MakeRoom => Room(es, max)
    case Remove(k) => Delete(es, k)
    case Clear => []
  }

  function Run<V>(es: seq<Entry<V>>, max: nat, ops: seq<Op<V>>): seq<Entry<V>> {
    if ops == [] then es else Step(Run(es, max, ops[..|ops| - 1]), max, ops[|ops| - 1])
  }

  ghost predicate Bounded<V>(es: seq<Entry<V>>, max: nat) { Distinct(es) && |es| <= max }

  lemma DeleteBounded<V>(es: seq<Entry<V>>, k: string)
    requires Distinct(es)
    ensures Distinct(Delete(es, k)) && |Delete(es, k)| <= |es|
  {
  }

  lemma AssignBounded<V>(es: seq<Entry<V>>, e: Entry<V>)
    requires Distinct(es)
    ensures Distinct(Assign(es, e)) && |Assign(es, e)| <= |es| + 1
  {
  }

  lemma StepBounded<V>(es: seq<Entry<V>>, max: nat, op: Op<V>)
    requires max >= 1 && Bounded(es, max)
    ensures Bounded(Step(es, max, op), max)
  {
    assert Distinct(Room(es, max));
    match op
    case Put(e) => AssignBounded(Room(es, max), e);
    case Remove(k) => DeleteBounded(es, k);
    case _ =>
  }

  /** No run ever holds more than the maximum, or one key twice. */
  lemma {:induction false} RunBounded<V>(es: seq<Entry<V>>, max: nat, ops: seq<Op<V>>)
    requires max >= 1 && Bounded(es, max)
    ensures Bounded(Run(es, max, ops), max)
  {
    if ops != [] {
      RunBounded(es, max, ops[..|ops| - 1]);
      StepBounded(Run(es, max, ops[..|ops| - 1]), max, ops[|ops| - 1]);
    }
  }

  lemma RunLast<V>(es: seq<Entry<V>>, max: nat, ops: seq<Op<V>>, op: Op<V>)
    ensures Run(es, max, ops + [op]) == Step(Run(es, max, ops), max, op)
  {
    assert (ops + [op])[..|ops|] == ops;
  }

  lemma {:induction false} RunSplit<V>(es: seq<Entry<V>>, max: nat, a: seq<Op<V>>, b: seq<Op<V>>)
    ensures Run(es, max, a + b) == Run(Run(es, max, a), max, b)
  {
    if b == [] {
      assert a + b == a;
    } else {
      var front, last, before := b[..|b| - 1], b[|b| - 1], a + b[..|b| - 1];
      calc {
        Run(es, max, a + b);
        { assert a + b == before + [last]; }
        Run(es, max, before + [last]);
        { RunLast(es, max, before, last); }
        Step(Run(es, max, before), max, last);
        { RunSplit(es, max, a, front); }
        Step(Run(Run(es, max, a), max, front), max, last);
        { RunLast(Run(es, max, a), max, front, last); }
        Run(Run(es, max, a), max, front + [last]);
        { assert front + [last] == b; }
        Run(Run(es, max, a), max, b);
      }
    }
  }

  // ---------- how long a key survives ----------

  /** The insertions that can still happen before `k` is the next to go: the keys in front of it
      and the free slots. */
  function Slack<V>(es: seq<Entry<V>>, max: nat, k: string): int { Position(es, k) + max - |es| }

  function Cost<V>(op: Op<V>, k: string): nat {
    if op.MakeRoom? || (op.Put? && op.entry.key != k) then 1 else 0
  }

  function Costs<V>(ops: seq<Op<V>>, k: string): nat {
    if ops == [] then 0 else Costs(ops[..|ops| - 1], k) + Cost(ops[|ops| - 1], k)
  }

  predicate Spares<V>(op: Op<V>, k: string) { op != Clear && op != Remove(k) }

  /** The last entry put under `k`, or `e` when there was none. */
  function LastPut<V>(ops: seq<Op<V>>, k: string, e: Entry<V>): Entry<V> {
    if ops == [] then e
    else
      var last := ops[|ops| - 1];
      if last.Put? && last.entry.key == k then last.entry else LastPut(ops[..|ops| - 1], k, e)
  }

  lemma RoomSlack<V>(es: seq<Entry<V>>, max: nat, k: string)
    requires max >= 1 && Bounded(es, max) && Has(es, k) && Slack(es, max, k) >= 1
    ensures var r := Room(es, max);
            && Has(r, k) && Distinct(r) && r[Position(r, k)] == es[Position(es, k)]
            && |r| < max && Slack(r, max, k) == Slack(es, max, k)
  {
    var p := Position(es, k);
    var r := Room(es, max);
    if |es| >= max { assert r[p - 1] == es[p]; PositionIs(r, p - 1); }
  }

  lemma AssignSlack<V>(es: seq<Entry<V>>, max: nat, e: Entry<V>, k: string)
    requires Distinct(es) && Has(es, k) && |es| < max
    ensures var r := Assign(es, e);
            && Distinct(r) && Has(r, k)
            && r[Position(r, k)] == (if e.key == k then e else es[Position(es, k)])
            && Slack(r, max, k) >= Slack(es, max, k) - if e.key == k then 0 else 1
  {
    var p := Position(es, k);
    assert Assign(es, e)[p].key == k;
    PositionIs(Assign(es, e), p);
  }

  lemma DeleteSlack<V>(es: seq<Entry<V>>, max: nat, d: string, k: string)
    requires Distinct(es) && Has(es, k) && d != k
    ensures var r := Delete(es, d);
            && Has(r, k) && r[Position(r, k)] == es[Position(es, k)]
            && Slack(r, max, k) >= Slack(es, max, k)
  {
    var p, i := Position(es, k), Position(es, d);
    var r := Delete(es, d);
    if i < |es| {
      var q := if i < p then p - 1 else p;
      assert r[q] == es[p];
      PositionIs(r, q);
    }
  }

  /** Putting the key itself: it keeps its place, except that the oldest key of a full dictionary is
      evicted and put back last. */
  lemma OwnPutSlack<V>(es: seq<Entry<V>>, max: nat, e: Entry<V>)
    requires max >= 1 && Bounded(es, max) && Has(es, e.key)
    ensures var r := Step(es, max, Put(e));
            && Has(r, e.key) && r[Position(r, e.key)] == e
            && Slack(r, max, e.key) == if Slack(es, max, e.key) == 0 then max - 1 else Slack(es, max, e.key)
  {
    if Slack(es, max, e.key) == 0 {
      var r := es[1..];
      PositionIs(r + [e], |r|);
    } else {
      RoomSlack(es, max, e.key);
      var r := Room(es, max);
      assert Assign(r, e)[Position(r, e.key)].key == e.key;
      PositionIs(Assign(r, e), Position(r, e.key));
    }
  }

  lemma StepSlack<V>(es: seq<Entry<V>>, max: nat, op: Op<V>, k: string)
    requires max >= 1 && Bounded(es, max) && Has(es, k) && Spares(op, k) && Cost(op, k) <= Slack(es, max, k)
    ensures var r := Step(es, max, op);
            && Has(r, k)
            && r[Position(r, k)] == (if op.Put? && op.entry.key == k then op.entry else es[Position(es, k)])
            && Slack(r, max, k) >= Slack(es, max, k) - Cost(op, k)
  {
    match op
    case Put(e) =>
      if e.key == k {
        OwnPutSlack(es, max, e);
      } else {
        RoomSlack(es, max, k);
        AssignSlack(Room(es, max), max, e, k);
      }
    case MakeRoom => RoomSlack(es, max, k);
    case Remove(d) => DeleteSlack(es, max, d, k);
  }

  /** A key outlives every run that does not delete it and inserts, or evicts for, no more other
      entries than its slack; its entry is then the last one put under it. */
  lemma {:induction false} Survives<V>(es: seq<Entry<V>>, max: nat, ops: seq<Op<V>>, k: string)
    requires max >= 1 && Bounded(es, max) && Has(es, k)
    requires forall i :: 0 <= i < |ops| ==> Spares(ops[i], k)
    requires Costs(ops, k) <= Slack(es, max, k)
    ensures var r := Run(es, max, ops);
            && Has(r, k)
            && r[Position(r, k)] == LastPut(ops, k, es[Position(es, k)])
            && Slack(r, max, k) >= Slack(es, max, k) - Costs(ops, k)
  {
    if ops != [] {
      var before, last := ops[..|ops| - 1], ops[|ops| - 1];
      Survives(es, max, before, k);
      RunBounded(es, max, before);
      StepSlack(Run(es, max, before), max, last, k);
    }
  }

  lemma NewestSlack<V>(es: seq<Entry<V>>, max: nat, e: Entry<V>)
    requires max >= 1 && Bounded(es, max) && !Has(es, e.key)
    ensures var r := Step(es, max, Put(e));
            && Bounded(r, max) && Has(r, e.key)
            && r[Position(r, e.key)] == e && Slack(r, max, e.key) == max - 1
  {
    var room := Room(es, max);
    forall j | 0 <= j < |es| ensures es[j].key != e.key { PositionIs(es, j); }
    assert Distinct(room + [e]);
    PositionIs(room + [e], |room|);
  }

  /** A key just inserted survives max - 1 further insertions, whatever they are. */
  lemma {:induction false} NewKeySurvives<V>(es: seq<Entry<V>>, max: nat, e: Entry<V>, now: seq<Entry<V>>,
                                             ops: seq<Op<V>>)
    requires max >= 1 && Bounded(es, max) && !Has(es, e.key) && now == Step(es, max, Put(e))
    requires forall i :: 0 <= i < |ops| ==> Spares(ops[i], e.key)
    requires Costs(ops, e.key) <= max - 1
    ensures var r := Run(now, max, ops); Has(r, e.key) && r[Position(r, e.key)] == LastPut(ops, e.key, e)
  {
    NewestSlack(es, max, e);
    Survives(now, max, ops, e.key);
  }

  lemma DistinctAppend<V>(es: seq<Entry<V>>, e: Entry<V>)
    requires Distinct(es + [e])
    ensures Distinct(es) && forall j :: 0 <= j < |es| ==> es[j].key != e.key
  {
    forall i, j | 0 <= i < j < |es| ensures es[i].key != es[j].key {
      assert (es + [e])[i] == es[i] && (es + [e])[j] == es[j];
    }
    forall j | 0 <= j < |es| ensures es[j].key != e.key {
      assert (es + [e])[j] == es[j] && (es + [e])[|es|] == e;
    }
  }

  function Puts<V>(es: seq<Entry<V>>): seq<Op<V>> { seq(|es|, i requires 0 <= i < |es| => Put(es[i])) }

  function Newest<V>(es: seq<Entry<V>>, max: nat): seq<Entry<V>> { if |es| > max then es[|es| - max..] else es }

  lemma NewestPut<V>(all: seq<Entry<V>>, max: nat, e: Entry<V>)
    requires max >= 1 && Distinct(all + [e])
    ensures Step(Newest(all, max), max, Put(e)) == Newest(all + [e], max)
  {
    DistinctAppend(all, e);
    var room := Room(Newest(all, max), max);
    assert room == if |all| >= max then all[|all| - max + 1..] else all;
    assert room + [e] == Newest(all + [e], max);
  }

  lemma LastOf<V>(es: seq<Entry<V>>, added: seq<Entry<V>>)
    requires added != []
    ensures es + added == (es + added[..|added| - 1]) + [added[|added| - 1]]
    ensures Puts(added)[..|added| - 1] == Puts(added[..|added| - 1])
  {
  }

  /** Fresh keys go through the dictionary first in, first out: it holds the newest `max`. */
  lemma {:induction false} FirstInFirstOut<V>(es: seq<Entry<V>>, max: nat, added: seq<Entry<V>>)
    requires max >= 1 && |es| <= max && Distinct(es + added)
    ensures Run(es, max, Puts(added)) == Newest(es + added, max)
  {
    if added == [] {
      assert es + added == es;
    } else {
      var all, e := es + added[..|added| - 1], added[|added| - 1];
      LastOf(es, added);
      DistinctAppend(all, e);
      FirstInFirstOut(es, max, added[..|added| - 1]);
      NewestPut(all, max, e);
    }
  }

  /** The bound is exact: over insertions of fresh keys, `k` is still there if and only if there
      were at most as many of them as its slack. */
  lemma SurvivesExactly<V>(es: seq<Entry<V>>, max: nat, added: seq<Entry<V>>, k: string)
    requires max >= 1 && |es| <= max && Distinct(es + added) && Has(es, k)
    ensures Has(Run(es, max, Puts(added)), k) <==> |added| <= Slack(es, max, k)
  {
    FirstInFirstOut(es, max, added);
    var all, p := es + added, Position(es, k);
    var r := Newest(all, max);
    var dropped := |all| - |r|;
    assert forall j :: 0 <= j < |r| ==> r[j] == all[dropped + j];
    assert all[p].key == k;
    if dropped <= p {
      assert r[p - dropped].key == k && Distinct(r);
      PositionIs(r, p - dropped);
    }
  }

  /** Setting a key again, exactly: it stays put, one place further forward when a full dictionary
      lost its oldest key to make room that was not needed; only the oldest key of a full
      dictionary moves, to the end. */
  lemma SetAgain<V>(es: seq<Entry<V>>, max: nat, e: Entry<V>)
    requires max >= 1 && Bounded(es, max) && Has(es, e.key)
    ensures var r, p, full := Step(es, max, Put(e)), Position(es, e.key), |es| == max;
            && Position(r, e.key) == (if !full then p else if p > 0 then p - 1 else max - 1)
            && |r| == (if full && p > 0 then max - 1 else |es|)
            && (Has(r, es[0].key) <==> !full || p == 0)
  {
    OwnPutSlack(es, max, e);
    var r, p := Step(es, max, Put(e)), Position(es, e.key);
    if |es| == max && p > 0 {
    } else if |es| < max {
      assert r[0].key == es[0].key;
      PositionIs(r, 0);
    }
  }

  // ---------- Redis ----------

  /** What is stored under a key in Redis; JSON that does not parse is unreadable. */
  datatype Record<V> = Unreadable | Record(value: Option<V>, embedding: seq<real>, version: Option<string>)

  /** Redis as one call sees it: the order a scan reports the keys in, and the records. */
  datatype Redis<V> = Redis(scan: seq<string>, table: map<string, Record<V>>)

  predicate Loadable<V>(table: map<string, Record<V>>, k: string) {
    k in table && table[k].Record? && table[k].embedding != []
  }

  function Loaded<V>(k: string, rec: Record<V>): Entry<V>
    requires rec.Record? && rec.value.Some?
  {
    Entry(k, rec.value.value, rec.embedding, rec.version)
  }

  /** Loading one record: only an absent key whose record carries an embedding changes anything;
      a record without a value evicts before it fails. */
  function LoadOps<V>(es: seq<Entry<V>>, table: map<string, Record<V>>, k: string): seq<Op<V>> {
    if Has(es, k) || !Loadable(table, k) then []
    else if table[k].value.None? then [MakeRoom]
    else [Put(Loaded(k, table[k]))]
  }

  function WarmOps<V>(es: seq<Entry<V>>, max: nat, table: map<string, Record<V>>, scan: seq<string>): seq<Op<V>> {
    if scan == [] then []
    else
      var before := WarmOps(es, max, table, scan[..|scan| - 1]);
      before + LoadOps(Run(es, max, before), table, scan[|scan| - 1])
  }

  ghost predicate CameFrom<V>(e: Entry<V>, table: map<string, Record<V>>) {
    Loadable(table, e.key) && table[e.key].value.Some? && e == Loaded(e.key, table[e.key])
  }

  /** Memory after a warm-up that fits: what was there, then loaded records, none missing. */
  ghost predicate WarmedFrom<V>(es: seq<Entry<V>>, r: seq<Entry<V>>, table: map<string, Record<V>>, scan: seq<string>) {
    && es <= r && |r| <= |es| + |scan|
    && (forall i :: |es| <= i < |r| ==> CameFrom(r[i], table))
    && (forall i :: 0 <= i < |scan| ==> Has(r, scan[i]) || !Loadable(table, scan[i]) || table[scan[i]].value.None?)
  }

  lemma RunOne<V>(es: seq<Entry<V>>, max: nat, op: Op<V>)
    ensures Run(es, max, [op]) == Step(es, max, op)
  {
    RunLast(es, max, [], op);
    assert [] + [op] == [op];
  }

  lemma HasMore<V>(es: seq<Entry<V>>, e: Entry<V>, k: string)
    requires Has(es, k)
    ensures Has(es + [e], k)
  {
    assert (es + [e])[Position(es, k)].key == k;
  }

  /** Loading one record, directly. */
  function AfterLoad<V>(es: seq<Entry<V>>, max: nat, table: map<string, Record<V>>, k: string): seq<Entry<V>> {
    if Has(es, k) || !Loadable(table, k) then es
    else if table[k].value.None? then Room(es, max)
    else Assign(Room(es, max), Loaded(k, table[k]))
  }

  function AfterWarm<V>(es: seq<Entry<V>>, max: nat, table: map<string, Record<V>>, scan: seq<string>): seq<Entry<V>> {
    if scan == [] then es
    else AfterLoad(AfterWarm(es, max, table, scan[..|scan| - 1]), max, table, scan[|scan| - 1])
  }

  lemma LoadIsRun<V>(es: seq<Entry<V>>, max: nat, table: map<string, Record<V>>, k: string)
    ensures Run(es, max, LoadOps(es, table, k)) == AfterLoad(es, max, table, k)
  {
    if !Has(es, k) && Loadable(table, k) {
      if table[k].value.None? { RunOne(es, max, Op<V>.MakeRoom); } else { RunOne(es, max, Put(Loaded(k, table[k]))); }
    }
  }

  lemma WarmOne<V>(es: seq<Entry<V>>, max: nat, r: seq<Entry<V>>, table: map<string, Record<V>>, scan: seq<string>,
                   k: string)
    requires WarmedFrom(es, r, table, scan) && |es| + |scan| < max
    ensures WarmedFrom(es, AfterLoad(r, max, table, k), table, scan + [k])
  {
    if !Has(r, k) && Loadable(table, k) && table[k].value.Some? {
      var e := Loaded(k, table[k]);
      assert (r + [e])[|r|].key == k;
      forall i | 0 <= i < |scan| && Has(r, scan[i]) ensures Has(r + [e], scan[i]) { HasMore(r, e, scan[i]); }
    }
  }

  /** A warm-up that fits keeps every entry and loads every record that has an embedding and a value. */
  lemma {:induction false} WarmUp<V>(es: seq<Entry<V>>, max: nat, table: map<string, Record<V>>, scan: seq<string>)
    requires |es| + |scan| <= max
    ensures WarmedFrom(es, AfterWarm(es, max, table, scan), table, scan)
  {
    if scan != [] {
      var front, k := scan[..|scan| - 1], scan[|scan| - 1];
      WarmUp(es, max, table, front);
      WarmOne(es, max, AfterWarm(es, max, table, front), table, front, k);
      assert front + [k] == scan;
    }
  }

  /** The warm-up is a run of the loads its records call for. */
  lemma {:induction false} WarmIsRun<V>(es: seq<Entry<V>>, max: nat, table: map<string, Record<V>>, scan: seq<string>)
    ensures Run(es, max, WarmOps(es, max, table, scan)) == AfterWarm(es, max, table, scan)
  {
    if scan != [] {
      var front, k := scan[..|scan| - 1], scan[|scan| - 1];
      var r := AfterWarm(es, max, table, front);
      WarmIsRun(es, max, table, front);
      RunSplit(es, max, WarmOps(es, max, table, front), LoadOps(r, table, k));
      LoadIsRun(r, max, table, k);
    }
  }

  lemma WarmNext<V>(es: seq<Entry<V>>, max: nat, table: map<string, Record<V>>, scan: seq<string>, i: nat)
    requires i < |scan|
    ensures AfterWarm(es, max, table, scan[..i + 1]) ==
              AfterLoad(AfterWarm(es, max, table, scan[..i]), max, table, scan[i])
  {
    assert scan[..i + 1][..i] == scan[..i];
  }

  // ---------- lookups ----------

  datatype Config = Config(max: nat, version: string, threshold: real,
                           similarity: (seq<real>, seq<real>) -> real, keyOf: string -> string)

  predicate Current(cfg: Config, version: Option<string>) { version.None? || version.value == cfg.version }

  /** What an exact lookup finds; a stale version ends the whole lookup with a miss. */
  datatype Exact<V> = Nothing | Stale | Found(value: V)

  function AskRedis<V>(cfg: Config, redis: Option<Redis<V>>, k: string): Exact<V> {
    if redis.None? || k !in redis.value.table || redis.value.table[k].Unreadable? then Nothing
    else if !Current(cfg, redis.value.table[k].version) then Stale
    else if redis.value.table[k].value.None? then Nothing
    else Found(redis.value.table[k].value.value)
  }

  function AskMemory<V>(cfg: Config, es: seq<Entry<V>>, k: string): Exact<V> {
    if !Has(es, k) then Nothing
    else if !Current(cfg, es[Position(es, k)].version) then Stale
    else Found(es[Position(es, k)].value)
  }

  function AskExact<V>(cfg: Config, es: seq<Entry<V>>, redis: Option<Redis<V>>, k: string): Exact<V> {
    if AskRedis(cfg, redis, k).Nothing? then AskMemory(cfg, es, k) else AskRedis(cfg, redis, k)
  }

  predicate Similar<V>(cfg: Config, e: Entry<V>, query: seq<real>) {
    e.embedding != [] && Current(cfg, e.version) && cfg.similarity(query, e.embedding) >= cfg.threshold
  }

  /** Entry i is the first of the most similar ones above the threshold. */
  ghost predicate IsBest<V>(cfg: Config, es: seq<Entry<V>>, query: seq<real>, i: nat) {
    && i < |es| && Similar(cfg, es[i], query)
    && (forall j :: 0 <= j < |es| && Similar(cfg, es[j], query) ==>
          cfg.similarity(query, es[j].embedding) <= cfg.similarity(query, es[i].embedding))
    && (forall j :: 0 <= j < i && Similar(cfg, es[j], query) ==>
          cfg.similarity(query, es[j].embedding) < cfg.similarity(query, es[i].embedding))
  }

  /** The repopulation a lookup does, and the warm-up when it is this lookup's turn. */
  function Repopulation<V>(cfg: Config, es: seq<Entry<V>>, redis: Option<Redis<V>>, k: string): seq<Op<V>> {
    if redis.None? || !Loadable(redis.value.table, k) || !Current(cfg, redis.value.table[k].version) then []
    else LoadOps(es, redis.value.table, k)
  }

  function WarmTurn<V>(cfg: Config, es: seq<Entry<V>>, redis: Option<Redis<V>>): seq<Op<V>> {
    if redis.None? then [] else WarmOps(es, cfg.max, redis.value.table, redis.value.scan)
  }

  /** A record of the right version without a value counts a hit before it raises, when it is not
      the repopulation that raises. */
  predicate CountsLostHit<V>(cfg: Config, es: seq<Entry<V>>, redis: Option<Redis<V>>, k: string) {
    && redis.Some? && k in redis.value.table && redis.value.table[k].Record?
    && Current(cfg, redis.value.table[k].version) && redis.value.table[k].value.None?
    && (Has(es, k) || redis.value.table[k].embedding == [])
  }

  class SemanticCache<V> {
    const cfg: Config
    var memory: seq<Entry<V>>
    var totalRequests: nat
    var hitsExact: nat
    var hitsSemantic: nat
    var warmed: bool

    ghost predicate Valid() reads this { cfg.max >= 1 && Bounded(memory, cfg.max) }

    constructor (cfg: Config)
      requires cfg.max >= 1
      ensures Valid() && this.cfg == cfg && memory == [] && !warmed
    {
      this.cfg := cfg;
      memory, totalRequests, hitsExact, hitsSemantic, warmed := [], 0, 0, 0, false;
    }

    method Evict()
      requires Valid()
      modifies this`memory
      ensures Valid() && memory == Step(old(memory), cfg.max, MakeRoom) && |memory| < cfg.max
    {
      if |memory| >= cfg.max { memory := memory[1..]; }
    }

    method Store(e: Entry<V>)
      requires Distinct(memory)
      modifies this`memory
      ensures memory == Assign(old(memory), e)
    {
      var i := Position(memory, e.key);
      memory := if i < |memory| then memory[i := e] else memory + [e];
    }

    /** `set`: makes room whether or not the key is there already. */
    method Set(query: string, value: V, embedding: seq<real>)
      requires Valid()
      modifies this`memory
      ensures Valid()
      ensures memory == Step(old(memory), cfg.max, Put(Entry(cfg.keyOf(query), value, embedding, Some(cfg.version))))
    {
      var e := Entry(cfg.keyOf(query), value, embedding, Some(cfg.version));
      StepBounded(memory, cfg.max, Put(e));
      Evict();
      Store(e);
    }

    method Delete(query: string)
      requires Valid()
      modifies this`memory
      ensures Valid() && memory == Step(old(memory), cfg.max, Remove(cfg.keyOf(query)))
    {
      StepBounded(memory, cfg.max, Remove(cfg.keyOf(query)));
      var i := Position(memory, cfg.keyOf(query));
      if i < |memory| { memory := memory[..i] + memory[i + 1..]; }
    }

    /** The count is the memory entries and every key the scan deletes. */
    method ClearNamespace(redis: Option<Redis<V>>) returns (count: nat)
      requires Valid()
      modifies this`memory
      ensures Valid() && memory == Step(old(memory), cfg.max, Clear)
      ensures count == old(|memory|) + if redis.Some? then |redis.value.scan| else 0
    {
      count := |memory|;
      memory := [];
      if redis.Some? { count := count + |redis.value.scan|; }
    }

    /** The body of the repopulation and of the warm-up: `ok` is false when the record has no value. */
    method Load(table: map<string, Record<V>>, k: string) returns (ok: bool)
      requires Valid()
      modifies this`memory
      ensures Valid() && memory == AfterLoad(old(memory), cfg.max, table, k)
      ensures !ok <==> LoadOps(old(memory), table, k) == [MakeRoom]
    {
      RunBounded(memory, cfg.max, LoadOps(memory, table, k));
      LoadIsRun(memory, cfg.max, table, k);
      if Has(memory, k) || !Loadable(table, k) { return true; }
      var rec := table[k];
      if rec.value.None? {
        Evict();
        return false;
      }
      Evict();
      Store(Loaded(k, rec));
      ok := true;
    }

    method LoadScan(table: map<string, Record<V>>, scan: seq<string>)
      requires Valid()
      modifies this`memory
      ensures Valid() && memory == AfterWarm(old(memory), cfg.max, table, scan)
    {
      ghost var before, n := memory, cfg.max;
      for i := 0 to |scan|
        invariant Valid() && memory == AfterWarm(before, n, table, scan[..i])
      {
        WarmNext(before, n, table, scan, i);
        var _ := Load(table, scan[i]);
      }
      assert scan[..|scan|] == scan;
    }

    method Warm(redis: Option<Redis<V>>)
      requires Valid()
      modifies this`memory, this`warmed
      ensures Valid() && warmed
      ensures memory == Run(old(memory), cfg.max, WarmTurn(cfg, old(memory), redis))
    {
      warmed := true;
      if redis.Some? {
        WarmIsRun(memory, cfg.max, redis.value.table, redis.value.scan);
        LoadScan(redis.value.table, redis.value.scan);
      }
    }

    /** The semantic scan: the first of the most similar entries, if any reaches the threshold. */
    method FindSimilar(query: seq<real>) returns (best: Option<nat>)
      ensures best.Some? ==> IsBest(cfg, memory, query, best.value)
      ensures best.None? ==> forall j :: 0 <= j < |memory| ==> !Similar(cfg, memory[j], query)
    {
      best := None;
      for i := 0 to |memory|
        invariant best.Some? ==> best.value < i && IsBest(cfg, memory[..i], query, best.value)
        invariant best.None? ==> forall j :: 0 <= j < i ==> !Similar(cfg, memory[j], query)
      {
        var e := memory[i];
        if e.embedding == [] || !Current(cfg, e.version) { continue; }
        var similarity := cfg.similarity(query, e.embedding);
        if similarity >= cfg.threshold {
          if best.None? || similarity > cfg.similarity(query, memory[best.value].embedding) {
            best := Some(i);
          }
        }
      }
      assert memory[..|memory|] == memory;
    }

    /** The exact part of `get`. */
    method GetExact(k: string, redis: Option<Redis<V>>) returns (r: Exact<V>)
      requires Valid()
      modifies this`memory, this`hitsExact
      ensures Valid()
      ensures r == AskExact(cfg, old(memory), redis, k)
      ensures memory == Run(old(memory), cfg.max, Repopulation(cfg, old(memory), redis, k))
      ensures hitsExact == old(hitsExact) + (if r.Found? then 1 else 0)
                           + if CountsLostHit(cfg, old(memory), redis, k) then 1 else 0
    {
      if redis.Some? && k in redis.value.table && redis.value.table[k].Record? {
        var rec := redis.value.table[k];
        if !Current(cfg, rec.version) { return Stale; }
        LoadIsRun(memory, cfg.max, redis.value.table, k);
        var ok := Load(redis.value.table, k);
        if ok {
          hitsExact := hitsExact + 1;
          if rec.value.Some? { return Found(rec.value.value); }
        } else {
        }
      }
      var i := Position(memory, k);
      if i < |memory| {
        if !Current(cfg, memory[i].version) { return Stale; }
        hitsExact := hitsExact + 1;
        return Found(memory[i].value);
      }
      r := Nothing;
    }

    /** `get`: an exact hit wins and a stale exact entry is a miss; otherwise the most similar entry
        of the memory, warmed once, answers.  A hit moves nothing: eviction stays first in, first
        out whatever is read. */
    method Get(query: string, embedding: seq<real>, redis: Option<Redis<V>>, useSemantic: bool)
      returns (r: Option<(V, bool)>)
      requires Valid()
      modifies this
      ensures Valid() && totalRequests == old(totalRequests) + 1
      ensures var exact := AskExact(cfg, old(memory), redis, cfg.keyOf(query));
              var first := Run(old(memory), cfg.max, Repopulation(cfg, old(memory), redis, cfg.keyOf(query)));
              && (exact.Found? ==> r == Some((exact.value, false)))
              && (exact.Stale? || (exact.Nothing? && (!useSemantic || embedding == [])) ==> r == None)
              && (if exact.Nothing? && useSemantic then
                    && warmed
                    && memory == (if old(warmed) then first else Run(first, cfg.max, WarmTurn(cfg, first, redis)))
                    && (embedding != [] ==>
                          if r.None? then forall j :: 0 <= j < |memory| ==> !Similar(cfg, memory[j], embedding)
                          else exists i: nat :: IsBest(cfg, memory, embedding, i) && r == Some((memory[i].value, true)))
                  else memory == first && warmed == old(warmed))
              && hitsSemantic == old(hitsSemantic) + (if r.Some? && r.value.1 then 1 else 0)
              && hitsExact == old(hitsExact) + (if exact.Found? then 1 else 0)
                              + if CountsLostHit(cfg, old(memory), redis, cfg.keyOf(query)) then 1 else 0
    {
      totalRequests := totalRequests + 1;
      var exact := GetExact(cfg.keyOf(query), redis);
      match exact {
        case Found(v) => return Some((v, false));
        case Stale => return None;
        case Nothing =>
      }
      if !useSemantic { return None; }
      if !warmed { Warm(redis); }
      if embedding == [] { return None; }
      var best := FindSimilar(embedding);
      if best.None? { return None; }
      hitsSemantic := hitsSemantic + 1;
      r := Some((memory[best.value].value, true));
    }
  }
}
