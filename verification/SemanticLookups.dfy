/** What the semantic cache serves, told from versions, values and similarities alone: what was set is
    found, nothing of another embedding version is, and nothing eligible is passed over. */
module SemanticLookups {
  import opened Wrappers
  import opened SemanticCaches

  /** Entries and records may be served that carry the cache's own embedding version, or none. */
  ghost predicate Own(cfg: Config, version: Option<string>) { version == None || version == Some(cfg.version) }

  // ---------- exact lookups ----------

  /** The record of a key that Redis can read. */
  ghost predicate Reads<V>(redis: Option<Redis<V>>, k: string, rec: Record<V>) {
    redis.Some? && k in redis.value.table && redis.value.table[k] == rec && rec.Record?
  }

  /** Redis first: its record answers when it has a value and may be served, and one of another version
      ends the lookup; memory answers when Redis has no such record. */
  lemma ExactByCases<V>(cfg: Config, es: seq<Entry<V>>, redis: Option<Redis<V>>, k: string)
    ensures forall rec :: Reads(redis, k, rec) && !Own(cfg, rec.version) ==> AskExact(cfg, es, redis, k) == Stale
    ensures forall rec :: Reads(redis, k, rec) && Own(cfg, rec.version) && rec.value.Some? ==>
              AskExact(cfg, es, redis, k) == Found(rec.value.value)
    ensures (forall rec :: Reads(redis, k, rec) ==> Own(cfg, rec.version) && rec.value.None?) ==>
              AskExact(cfg, es, redis, k) ==
              if !Has(es, k) then Nothing
              else if Own(cfg, es[Position(es, k)].version) then Found(es[Position(es, k)].value) else Stale
  {
    if redis.Some? && k in redis.value.table && redis.value.table[k].Record? {
      assert Reads(redis, k, redis.value.table[k]);
    }
  }

  /** An exact hit is the value of a record or an entry of the key that may be served. */
  lemma FoundIsOwn<V>(cfg: Config, es: seq<Entry<V>>, redis: Option<Redis<V>>, k: string)
    requires AskExact(cfg, es, redis, k).Found?
    ensures var v := AskExact(cfg, es, redis, k).value;
            || (exists rec :: Reads(redis, k, rec) && Own(cfg, rec.version) && rec.value == Some(v))
            || (exists i :: 0 <= i < |es| && es[i].key == k && Own(cfg, es[i].version) && es[i].value == v)
  {
    if AskRedis(cfg, redis, k).Found? {
      assert Reads(redis, k, redis.value.table[k]);
    } else {
      assert es[Position(es, k)].key == k;
    }
  }

  /** Set, then get: after a query was set, and whatever happens next within the key's slack that neither
      deletes nor clears it, the lookup without Redis finds the value last put under its key - the one set
      when there was no other - provided that one may be served. */
  lemma SetThenGet<V>(cfg: Config, es: seq<Entry<V>>, query: string, value: V, embedding: seq<real>, ops: seq<Op<V>>)
    requires cfg.max >= 1 && Bounded(es, cfg.max)
    requires var k := cfg.keyOf(query);
             var now := Step(es, cfg.max, Put(Entry(k, value, embedding, Some(cfg.version))));
             && (forall i :: 0 <= i < |ops| ==> Spares(ops[i], k))
             && Costs(ops, k) <= Slack(now, cfg.max, k)
             && Own(cfg, LastPut(ops, k, Entry(k, value, embedding, Some(cfg.version))).version)
    ensures var k, e := cfg.keyOf(query), Entry(cfg.keyOf(query), value, embedding, Some(cfg.version));
            AskExact(cfg, Run(Step(es, cfg.max, Put(e)), cfg.max, ops), None, k) == Found(LastPut(ops, k, e).value)
  {
    var k, e := cfg.keyOf(query), Entry(cfg.keyOf(query), value, embedding, Some(cfg.version));
    var now := Step(es, cfg.max, Put(e));
    StepBounded(es, cfg.max, Put(e));
    if Has(es, k) { OwnPutSlack(es, cfg.max, e); } else { NewestSlack(es, cfg.max, e); }
    Survives(now, cfg.max, ops, k);
    ExactByCases(cfg, Run(now, cfg.max, ops), None, k);
  }

  /** Putting other keys costs one each. */
  lemma {:induction false} PutsCost<V>(added: seq<Entry<V>>, k: string)
    requires forall i :: 0 <= i < |added| ==> added[i].key != k
    ensures Costs(Puts(added), k) == |added|
  {
    if added != [] {
      PutsCost(added[..|added| - 1], k);
      LastOf([], added);
    }
  }

  /** The hit that is counted and lost: a record of the key that may be served but has no value, when it is not
      loading it that fails first. */
  lemma LostHitsAre<V>(cfg: Config, es: seq<Entry<V>>, redis: Option<Redis<V>>, k: string)
    ensures CountsLostHit(cfg, es, redis, k) <==>
              exists rec :: Reads(redis, k, rec) && Own(cfg, rec.version) && rec.value == None
                         && (Has(es, k) || rec.embedding == [])
  {
    if CountsLostHit(cfg, es, redis, k) { assert Reads(redis, k, redis.value.table[k]); }
  }

  /** A deleted key is gone, and every other entry stays. */
  lemma DeleteForgets<V>(es: seq<Entry<V>>, k: string, x: Entry<V>)
    requires Distinct(es)
    ensures x in Delete(es, k) <==> x in es && x.key != k
  {
    var i, r := Position(es, k), Delete(es, k);
    if x in es {
      var j :| 0 <= j < |es| && es[j] == x;
      if j < i { assert i < |es| ==> r[j] == x; } else if j > i { assert r[j - 1] == x; }
    }
    if x in r {
      var j :| 0 <= j < |r| && r[j] == x;
      if i < |es| { assert r[j] == es[if j < i then j else j + 1]; }
    }
  }

  // ---------- similar entries ----------

  /** An entry that may answer a query by its meaning. */
  ghost predicate Eligible<V>(cfg: Config, e: Entry<V>, query: seq<real>) {
    e.embedding != [] && Own(cfg, e.version) && cfg.similarity(query, e.embedding) >= cfg.threshold
  }

  /** The entry that answers is eligible, no eligible one is more similar, and none before it is as similar. */
  lemma BestIsEligible<V>(cfg: Config, es: seq<Entry<V>>, query: seq<real>, i: nat)
    requires IsBest(cfg, es, query, i)
    ensures i < |es| && Eligible(cfg, es[i], query)
    ensures forall j :: 0 <= j < |es| && Eligible(cfg, es[j], query) ==>
              && cfg.similarity(query, es[j].embedding) <= cfg.similarity(query, es[i].embedding)
              && (j < i ==> cfg.similarity(query, es[j].embedding) < cfg.similarity(query, es[i].embedding))
  {
    forall j | 0 <= j < |es| && Eligible(cfg, es[j], query) ensures Similar(cfg, es[j], query) {}
  }

  /** Nothing eligible is passed over: some entry answers if and only if one is eligible. */
  lemma {:induction false} NothingPassedOver<V>(cfg: Config, es: seq<Entry<V>>, query: seq<real>)
    ensures (exists i: nat :: IsBest(cfg, es, query, i)) <==> exists j :: 0 <= j < |es| && Eligible(cfg, es[j], query)
  {
    if i: nat :| IsBest(cfg, es, query, i) {
      BestIsEligible(cfg, es, query, i);
    } else if j :| 0 <= j < |es| && Eligible(cfg, es[j], query) {
      var i := SomeIsBest(cfg, es, query, j);
    }
  }

  lemma {:induction false} SomeIsBest<V>(cfg: Config, es: seq<Entry<V>>, query: seq<real>, j: nat) returns (i: nat)
    requires j < |es| && Similar(cfg, es[j], query)
    ensures IsBest(cfg, es, query, i)
  {
    var front, last := es[..|es| - 1], |es| - 1;
    if h: nat :| h < |front| && Similar(cfg, front[h], query) {
      i := SomeIsBest(cfg, front, query, h);
      if Similar(cfg, es[last], query)
         && cfg.similarity(query, es[last].embedding) > cfg.similarity(query, es[i].embedding) {
        i := last;
      }
      forall m | 0 <= m < last ensures es[m] == front[m] {}
    } else {
      i := last;
      forall m | 0 <= m < last ensures !Similar(cfg, es[m], query) { assert front[m] == es[m]; }
    }
  }

  // ---------- loading ----------

  /** Loading a record, exactly: an absent key whose record can be read and carries an embedding is put
      last, after making room; without a value it only makes room; anything else changes nothing. */
  lemma LoadsExactly<V>(es: seq<Entry<V>>, max: nat, table: map<string, Record<V>>, k: string)
    ensures var r, room := AfterLoad(es, max, table, k), if |es| >= max && es != [] then es[1..] else es;
            if !Has(es, k) && k in table && table[k].Record? && table[k].embedding != [] then
              match table[k].value
              case None => r == room
              case Some(v) => r == room + [Entry(k, v, table[k].embedding, table[k].version)]
            else r == es
  {
    if !Has(es, k) && |es| >= max && es != [] { assert !Has(es[1..], k); }
  }
}
