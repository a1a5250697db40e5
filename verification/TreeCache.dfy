/** The LRU cache for RAPTOR metadata: an ordered dictionary whose first entry is the
    least recently used one.  The class is proved against functions on sequences of
    entries; the theorems compare two caches of different sizes over one trace. */
module TreeCache {
  import opened Wrappers

  datatype Entry<V> = Entry(key: string, value: V)

  // ---------- the ordered dictionary as a sequence of entries ----------

  ghost predicate HasKey<V>(es: seq<Entry<V>>, k: string) {
    exists i :: 0 <= i < |es| && es[i].key == k
  }

  ghost predicate Distinct<V>(es: seq<Entry<V>>) {
    forall i, j :: 0 <= i < j < |es| ==> es[i].key != es[j].key
  }

  /** The entries of `es` whose key is in `ks`, in order. */
  ghost function Restrict<V>(es: seq<Entry<V>>, ks: iset<string>): seq<Entry<V>> {
    if es == [] then []
    else Restrict(es[..|es| - 1], ks) + if es[|es| - 1].key in ks then [es[|es| - 1]] else []
  }

  ghost predicate Differs(x: string, k: string) { x != k }

  ghost function AllBut(k: string): iset<string> { iset x: string | Differs(x, k) }

  ghost function Without<V>(es: seq<Entry<V>>, k: string): seq<Entry<V>> {
    Restrict(es, AllBut(k))
  }

  ghost function Lookup<V>(es: seq<Entry<V>>, k: string): Option<V> {
    if es == [] then None
    else if es[|es| - 1].key == k then Some(es[|es| - 1].value)
    else Lookup(es[..|es| - 1], k)
  }

  /** What is left once the oldest entries beyond `n` are popped. */
  ghost function Evict<V>(es: seq<Entry<V>>, n: nat): seq<Entry<V>> {
    if |es| > n then es[|es| - n..] else es
  }

  ghost function AfterGet<V>(es: seq<Entry<V>>, k: string): seq<Entry<V>> {
    match Lookup(es, k)
    case None => es
    case Some(v) => Without(es, k) + [Entry(k, v)]
  }

  ghost function AfterPut<V>(es: seq<Entry<V>>, n: nat, k: string, v: V): seq<Entry<V>> {
    Evict(Without(es, k) + [Entry(k, v)], n)
  }

  // ---------- facts about the sequence functions ----------

  /** Where an entry of the restriction sits in the original. */
  lemma {:induction false} RestrictedFrom<V>(es: seq<Entry<V>>, ks: iset<string>, i: nat) returns (j: nat)
    requires i < |Restrict(es, ks)|
    ensures j < |es| && es[j] == Restrict(es, ks)[i] && es[j].key in ks
  {
    var front := es[..|es| - 1];
    if i < |Restrict(front, ks)| {
      j := RestrictedFrom(front, ks, i);
    } else {
      j := |es| - 1;
    }
  }

  lemma {:induction false} RestrictedTo<V>(es: seq<Entry<V>>, ks: iset<string>, j: nat) returns (i: nat)
    requires j < |es| && es[j].key in ks
    ensures i < |Restrict(es, ks)| && Restrict(es, ks)[i] == es[j]
  {
    var front := es[..|es| - 1];
    if j < |front| {
      i := RestrictedTo(front, ks, j);
    } else {
      i := |Restrict(front, ks)|;
    }
  }

  lemma {:induction false} RestrictDistinct<V>(es: seq<Entry<V>>, ks: iset<string>)
    requires Distinct(es)
    ensures Distinct(Restrict(es, ks))
  {
    if es != [] {
      var front := es[..|es| - 1];
      RestrictDistinct(front, ks);
      forall i | 0 <= i < |Restrict(front, ks)| ensures Restrict(front, ks)[i].key != es[|es| - 1].key {
        var j := RestrictedFrom(front, ks, i);
      }
    }
  }

  lemma {:induction false} RestrictTwice<V>(es: seq<Entry<V>>, ks: iset<string>, ls: iset<string>)
    ensures Restrict(Restrict(es, ks), ls) == Restrict(es, ks * ls)
  {
    if es != [] {
      var front, last := es[..|es| - 1], es[|es| - 1];
      RestrictTwice(front, ks, ls);
      if last.key in ks {
      } else {
        assert Restrict(front, ks) + [] == Restrict(front, ks);
      }
    }
  }

  lemma {:induction false} RestrictAgree<V>(es: seq<Entry<V>>, ks: iset<string>, ls: iset<string>)
    requires forall i :: 0 <= i < |es| ==> (es[i].key in ks <==> es[i].key in ls)
    ensures Restrict(es, ks) == Restrict(es, ls)
  {
    if es != [] {
      RestrictAgree(es[..|es| - 1], ks, ls);
    }
  }

  lemma {:induction false} RestrictAll<V>(es: seq<Entry<V>>, ks: iset<string>)
    requires forall i :: 0 <= i < |es| ==> es[i].key in ks
    ensures Restrict(es, ks) == es
  {
    if es != [] {
      RestrictAll(es[..|es| - 1], ks);
    }
  }

  /** Popping the head of the dictionary pops the head of a restriction, or leaves it alone. */
  lemma {:induction false} RestrictTail<V>(es: seq<Entry<V>>, ks: iset<string>)
    requires es != []
    ensures Restrict(es, ks) == (if es[0].key in ks then [es[0]] else []) + Restrict(es[1..], ks)
  {
    if |es| > 1 {
      RestrictTail(es[..|es| - 1], ks);
      assert es[..|es| - 1][1..] == es[1..][..|es| - 2];
    }
  }

  lemma {:induction false} LookupFinds<V>(es: seq<Entry<V>>, k: string)
    ensures Lookup(es, k).Some? <==> HasKey(es, k)
    ensures Lookup(es, k).Some? ==> exists i :: 0 <= i < |es| && es[i] == Entry(k, Lookup(es, k).value)
  {
    if es != [] {
      LookupFinds(es[..|es| - 1], k);
      assert es == es[..|es| - 1] + [es[|es| - 1]];
    }
  }

  lemma {:induction false} RemoveAt<V>(es: seq<Entry<V>>, i: nat)
    requires Distinct(es) && i < |es|
    ensures Without(es, es[i].key) == es[..i] + es[i + 1..]
  {
    var k := es[i].key;
    if i == |es| - 1 {
      RestrictAll(es[..i], AllBut(k));
    } else {
      var front, last := es[..|es| - 1], es[|es| - 1];
      RemoveAt(front, i);
      assert front[i + 1..] + [last] == es[i + 1..];
      assert front[..i] + front[i + 1..] + [last] == front[..i] + (front[i + 1..] + [last]);
    }
  }

  lemma WithoutFacts<V>(es: seq<Entry<V>>, k: string)
    requires Distinct(es)
    ensures Distinct(Without(es, k)) && !HasKey(Without(es, k), k)
    ensures !HasKey(es, k) ==> Without(es, k) == es
    ensures |Without(es, k)| == if HasKey(es, k) then |es| - 1 else |es|
    ensures forall i :: 0 <= i < |Without(es, k)| ==> Without(es, k)[i].key != k
  {
    RestrictDistinct(es, AllBut(k));
    forall i | 0 <= i < |Without(es, k)| ensures Without(es, k)[i].key != k {
      var j := RestrictedFrom(es, AllBut(k), i);
    }
    if HasKey(es, k) {
      var i :| 0 <= i < |es| && es[i].key == k;
      RemoveAt(es, i);
    } else {
      RestrictAll(es, AllBut(k));
    }
  }

  // ---------- the class ----------

  class TreeCacheService<V> {
    const maxLocalSize: int
    var entries: seq<Entry<V>>

    ghost predicate Valid() reads this {
      Distinct(entries) && (0 <= maxLocalSize ==> |entries| <= maxLocalSize)
    }

    constructor (size: int := 50)
      ensures Valid() && entries == [] && maxLocalSize == size
    {
      maxLocalSize := size;
      entries := [];
    }

    /** Position of `k`, or the length when it is absent. */
    method Find(k: string) returns (i: nat)
      requires Valid()
      ensures i <= |entries|
      ensures i == |entries| ==> Lookup(entries, k).None? && Without(entries, k) == entries
      ensures i < |entries| ==> Lookup(entries, k) == Some(entries[i].value) && entries[i].key == k
      ensures i < |entries| ==> Without(entries, k) == entries[..i] + entries[i + 1..]
    {
      LookupFinds(entries, k);
      WithoutFacts(entries, k);
      i := 0;
      while i < |entries| && entries[i].key != k
        invariant i <= |entries|
        invariant forall j :: 0 <= j < i ==> entries[j].key != k
      {
        i := i + 1;
      }
      if i < |entries| {
        RemoveAt(entries, i);
      }
    }

    method Get(k: string) returns (r: Option<V>)
      requires Valid()
      modifies this`entries
      ensures Valid()
      ensures r == Lookup(old(entries), k)
      ensures entries == AfterGet(old(entries), k)
    {
      var i := Find(k);
      if i == |entries| { return None; }
      StepValid(entries, |entries|, Op.Get(k));
      r := Some(entries[i].value);
      entries := entries[..i] + entries[i + 1..] + [entries[i]];
    }

    /** Popping the oldest entries until the size fits; `ok` is false when the loop pops
        an empty dictionary, which happens exactly for a negative size. */
    method EvictOldest() returns (ok: bool)
      modifies this`entries
      ensures ok <==> 0 <= maxLocalSize
      ensures entries == if ok then Evict(old(entries), maxLocalSize) else []
    {
      while |entries| > maxLocalSize
        invariant |entries| <= old(|entries|) && entries == old(entries)[old(|entries|) - |entries|..]
        invariant 0 <= maxLocalSize < old(|entries|) ==> maxLocalSize <= |entries|
        invariant old(|entries|) <= maxLocalSize ==> entries == old(entries)
        decreases |entries|
      {
        if entries == [] { return false; }
        entries := entries[1..];
      }
      ok := true;
    }

    method Put(k: string, v: V) returns (ok: bool)
      requires Valid()
      modifies this`entries
      ensures Valid()
      ensures ok <==> 0 <= maxLocalSize
      ensures entries == if ok then AfterPut(old(entries), maxLocalSize, k, v) else []
    {
      WithoutFacts(entries, k);
      var i := Find(k);
      if i < |entries| {
        entries := entries[..i] + entries[i + 1..] + [entries[i]];
        entries := entries[|entries| - 1 := Entry(k, v)];
      } else {
        entries := entries + [Entry(k, v)];
      }
      assert entries == Without(old(entries), k) + [Entry(k, v)];
      ok := EvictOldest();
      if ok { StepValid(old(entries), if maxLocalSize < 0 then 0 else maxLocalSize, Op.Put(k, v)); }
    }

    method Invalidate(k: string) returns (present: bool)
      requires Valid()
      modifies this`entries
      ensures Valid()
      ensures present <==> HasKey(old(entries), k)
      ensures entries == Without(old(entries), k)
    {
      LookupFinds(entries, k);
      WithoutFacts(entries, k);
      var i := Find(k);
      present := i < |entries|;
      if present {
        entries := entries[..i] + entries[i + 1..];
      }
    }

    method Clear()
      modifies this`entries
      ensures Valid() && entries == []
    {
      entries := [];
    }
  }

  // ---------- traces ----------

  datatype Op<V> = Get(key: string) | Put(key: string, value: V) | Invalidate(key: string) | Clear

  ghost function Step<V>(es: seq<Entry<V>>, n: nat, op: Op<V>): seq<Entry<V>> {
    match op
    case Get(k) => AfterGet(es, k)
    case Put(k, v) => AfterPut(es, n, k, v)
    case Invalidate(k) => Without(es, k)
    case Clear => []
  }

  ghost function Run<V>(ops: seq<Op<V>>, n: nat): seq<Entry<V>> {
    if ops == [] then [] else Step(Run(ops[..|ops| - 1], n), n, ops[|ops| - 1])
  }

  ghost function Hits<V>(ops: seq<Op<V>>, n: nat): nat {
    if ops == [] then 0
    else
      var last, before := ops[|ops| - 1], ops[..|ops| - 1];
      Hits(before, n) + if last.Get? && Lookup(Run(before, n), last.key).Some? then 1 else 0
  }

  /** Position of the last get or put of `k`, plus one; 0 if there is none. */
  ghost function LastUse<V>(ops: seq<Op<V>>, k: string): nat {
    if ops == [] then 0
    else
      var last := ops[|ops| - 1];
      if (last.Get? || last.Put?) && last.key == k then |ops| else LastUse(ops[..|ops| - 1], k)
  }

  ghost function LastPut<V>(ops: seq<Op<V>>, k: string): Option<V> {
    if ops == [] then None
    else
      var last := ops[|ops| - 1];
      if last.Put? && last.key == k then Some(last.value) else LastPut(ops[..|ops| - 1], k)
  }

  /** `a` is obtained from `b` by deleting entries. */
  ghost predicate Subsequence<V>(a: seq<Entry<V>>, b: seq<Entry<V>>) {
    a == [] || (b != [] && (if a[|a| - 1] == b[|b| - 1]
                            then Subsequence(a[..|a| - 1], b[..|b| - 1])
                            else Subsequence(a, b[..|b| - 1])))
  }

  lemma {:induction false} RestrictionIsSubsequence<V>(es: seq<Entry<V>>, ks: iset<string>)
    requires Distinct(es)
    ensures Subsequence(Restrict(es, ks), es)
  {
    if es != [] {
      var front := es[..|es| - 1];
      RestrictionIsSubsequence(front, ks);
      var r, f := Restrict(es, ks), Restrict(front, ks);
      if es[|es| - 1].key in ks {
        assert r[..|r| - 1] == f;
      } else {
        assert r == f;
        if r != [] {
          var j := RestrictedFrom(front, ks, |f| - 1);
        }
      }
    }
  }

  // ---------- one cache over a trace ----------

  lemma StepValid<V>(es: seq<Entry<V>>, n: nat, op: Op<V>)
    requires Distinct(es) && |es| <= n
    ensures Distinct(Step(es, n, op)) && |Step(es, n, op)| <= n
  {
    if op != Clear {
      LookupFinds(es, op.key);
      WithoutFacts(es, op.key);
    }
  }

  lemma {:induction false} RunValid<V>(ops: seq<Op<V>>, n: nat)
    ensures Distinct(Run(ops, n)) && |Run(ops, n)| <= n
  {
    if ops != [] {
      RunValid(ops[..|ops| - 1], n);
      StepValid(Run(ops[..|ops| - 1], n), n, ops[|ops| - 1]);
    }
  }

  ghost predicate SortedByUse<V>(es: seq<Entry<V>>, ops: seq<Op<V>>) {
    && (forall i, j :: 0 <= i < j < |es| ==> LastUse(ops, es[i].key) < LastUse(ops, es[j].key))
    && (forall i :: 0 <= i < |es| ==> LastUse(ops, es[i].key) <= |ops|)
  }

  lemma {:induction false} RestrictSorted<V>(es: seq<Entry<V>>, ops: seq<Op<V>>, ks: iset<string>)
    requires SortedByUse(es, ops)
    ensures SortedByUse(Restrict(es, ks), ops)
  {
    if es != [] {
      var front, last := es[..|es| - 1], es[|es| - 1];
      RestrictSorted(front, ops, ks);
      var r := Restrict(front, ks);
      forall i | 0 <= i < |r| ensures LastUse(ops, r[i].key) < LastUse(ops, last.key) {
        var j := RestrictedFrom(front, ks, i);
        assert es[j].key == r[i].key;
      }
    }
  }

  ghost predicate UpToDate<V>(es: seq<Entry<V>>, ops: seq<Op<V>>) {
    forall i :: 0 <= i < |es| ==> LastPut(ops, es[i].key) == Some(es[i].value)
  }

  lemma SortedEvict<V>(es: seq<Entry<V>>, ops: seq<Op<V>>, n: nat)
    requires SortedByUse(es, ops) && UpToDate(es, ops)
    ensures SortedByUse(Evict(es, n), ops) && UpToDate(Evict(es, n), ops)
  {
    if |es| > n {
      forall i | 0 <= i < n ensures Evict(es, n)[i] == es[|es| - n + i] {}
    }
  }

  /** The entries an operation does not name keep their last use and their last put. */
  lemma OthersUnused<V>(es: seq<Entry<V>>, ops: seq<Op<V>>)
    requires ops != [] && Distinct(es)
    requires SortedByUse(es, ops[..|ops| - 1]) && UpToDate(es, ops[..|ops| - 1])
    requires ops[|ops| - 1] != Clear && !HasKey(es, ops[|ops| - 1].key)
    ensures SortedByUse(es, ops) && UpToDate(es, ops)
    ensures forall i :: 0 <= i < |es| ==> LastUse(ops, es[i].key) < |ops|
  {
    forall i | 0 <= i < |es|
      ensures LastUse(ops, es[i].key) == LastUse(ops[..|ops| - 1], es[i].key) < |ops|
      ensures LastPut(ops, es[i].key) == LastPut(ops[..|ops| - 1], es[i].key)
    {
      assert es[i].key != ops[|ops| - 1].key;
    }
  }

  lemma WithoutKeepsOrder<V>(es: seq<Entry<V>>, ops: seq<Op<V>>, k: string)
    requires Distinct(es) && SortedByUse(es, ops) && UpToDate(es, ops)
    ensures SortedByUse(Without(es, k), ops) && UpToDate(Without(es, k), ops)
  {
    RestrictSorted(es, ops, AllBut(k));
    forall i | 0 <= i < |Without(es, k)|
      ensures LastPut(ops, Without(es, k)[i].key) == Some(Without(es, k)[i].value)
    {
      var j := RestrictedFrom(es, AllBut(k), i);
    }
  }

  /** An entry moved to (or put at) the end, behind the entries the operation does not name. */
  lemma SortedMove<V>(rest: seq<Entry<V>>, ops: seq<Op<V>>, e: Entry<V>)
    requires ops != [] && Distinct(rest) && !HasKey(rest, e.key)
    requires SortedByUse(rest, ops[..|ops| - 1]) && UpToDate(rest, ops[..|ops| - 1])
    requires ops[|ops| - 1] == Put(e.key, e.value)
          || (ops[|ops| - 1] == Get(e.key) && LastPut(ops[..|ops| - 1], e.key) == Some(e.value))
    ensures SortedByUse(rest + [e], ops) && UpToDate(rest + [e], ops)
  {
    OthersUnused(rest, ops);
  }

  lemma SortedStep<V>(es: seq<Entry<V>>, n: nat, ops: seq<Op<V>>)
    requires ops != [] && Distinct(es) && |es| <= n
    requires SortedByUse(es, ops[..|ops| - 1]) && UpToDate(es, ops[..|ops| - 1])
    ensures SortedByUse(Step(es, n, ops[|ops| - 1]), ops) && UpToDate(Step(es, n, ops[|ops| - 1]), ops)
  {
    var before, op := ops[..|ops| - 1], ops[|ops| - 1];
    if op == Clear { return; }
    WithoutKeepsOrder(es, before, op.key);
    WithoutFacts(es, op.key);
    LookupFinds(es, op.key);
    if op.Put? {
      SortedMove(Without(es, op.key), ops, Entry(op.key, op.value));
      SortedEvict(Without(es, op.key) + [Entry(op.key, op.value)], ops, n);
    } else if op.Get? && Lookup(es, op.key).Some? {
      SortedMove(Without(es, op.key), ops, Entry(op.key, Lookup(es, op.key).value));
    } else {
      OthersUnused(Without(es, op.key), ops);
    }
  }

  /** The cache really is least-recently-used and up to date: after any trace the entries
      stand in the order of their last get or put, and each holds the value last put. */
  lemma {:induction false} RecencyOrderAndLastValue<V>(ops: seq<Op<V>>, n: nat)
    ensures SortedByUse(Run(ops, n), ops) && UpToDate(Run(ops, n), ops)
  {
    if ops != [] {
      var before := ops[..|ops| - 1];
      RecencyOrderAndLastValue(before, n);
      RunValid(before, n);
      SortedStep(Run(before, n), n, ops);
    }
  }

  // ---------- what is held ----------

  lemma RunLast<V>(ops: seq<Op<V>>, op: Op<V>, n: nat)
    ensures Run(ops + [op], n) == Step(Run(ops, n), n, op)
  {
    assert (ops + [op])[..|ops|] == ops;
  }

  /** Whatever the cache holds, a put is stored: it is then the newest entry and the lookup finds it. */
  lemma PutIsHeld<V>(ops: seq<Op<V>>, n: nat, k: string, v: V)
    requires n >= 1
    ensures var r := Run(ops + [Put(k, v)], n);
            r != [] && r[|r| - 1] == Entry(k, v) && Lookup(r, k) == Some(v)
  {
    RunLast(ops, Put(k, v), n);
  }

  /** An invalidated key is gone and no other entry is touched. */
  lemma InvalidateForgets<V>(ops: seq<Op<V>>, n: nat, k: string, d: string)
    ensures var before, r := Run(ops, n), Run(ops + [Invalidate(k)], n);
            Lookup(r, d) == if d == k then None else Lookup(before, d)
  {
    RunLast(ops, Op<V>.Invalidate(k), n);
    LookupWithout(Run(ops, n), k, d);
  }

  lemma {:induction false} LookupWithout<V>(es: seq<Entry<V>>, k: string, d: string)
    ensures Lookup(Without(es, k), d) == if d == k then None else Lookup(es, d)
  {
    if es != [] {
      var front, last := es[..|es| - 1], es[|es| - 1];
      LookupWithout(front, k, d);
      assert Without(es, k) == Without(front, k) + if last.key != k then [last] else [];
      if last.key == k { assert Without(front, k) + [] == Without(front, k); }
    }
  }

  /** The keys a trace gets or puts. */
  ghost function Used<V>(ops: seq<Op<V>>): set<string> {
    set i | 0 <= i < |ops| && (ops[i].Get? || ops[i].Put?) :: ops[i].key
  }

  predicate Spares<V>(op: Op<V>, k: string) { op != Clear && op != Invalidate(k) }

  /** Key k is held, and every entry newer than it has its key in `newer`. */
  ghost predicate HeldBefore<V>(es: seq<Entry<V>>, k: string, newer: set<string>) {
    exists i :: 0 <= i < |es| && es[i].key == k && forall j :: i < j < |es| ==> es[j].key in newer
  }

  /** Entries with distinct keys among finitely many are at most that many. */
  lemma {:induction false} FewKeys<V>(es: seq<Entry<V>>, ks: set<string>)
    requires Distinct(es) && forall i :: 0 <= i < |es| ==> es[i].key in ks
    ensures |es| <= |ks|
  {
    if es != [] {
      var front, last := es[..|es| - 1], es[|es| - 1];
      forall i | 0 <= i < |front| ensures front[i].key in ks - {last.key} { assert front[i] == es[i]; }
      FewKeys(front, ks - {last.key});
    }
  }

  /** Taking one other entry out leaves k where it was among the rest. */
  lemma HeldWithout<V>(es: seq<Entry<V>>, k: string, newer: set<string>, d: string)
    requires Distinct(es) && HeldBefore(es, k, newer) && d != k
    ensures HeldBefore(Without(es, d), k, newer)
  {
    var i :| 0 <= i < |es| && es[i].key == k && forall j :: i < j < |es| ==> es[j].key in newer;
    WithoutFacts(es, d);
    if HasKey(es, d) {
      var p :| 0 <= p < |es| && es[p].key == d;
      RemoveAt(es, p);
      var r := Without(es, d);
      var q := if p < i then i - 1 else i;
      assert r[q].key == k;
      forall j | q < j < |r| ensures r[j].key in newer { assert r[j] == es[if j < p then j else j + 1]; }
    }
  }

  lemma HeldAppend<V>(es: seq<Entry<V>>, k: string, newer: set<string>, e: Entry<V>)
    requires HeldBefore(es, k, newer) && e.key in newer
    ensures HeldBefore(es + [e], k, newer)
  {
    var i :| 0 <= i < |es| && es[i].key == k && forall j :: i < j < |es| ==> es[j].key in newer;
    assert (es + [e])[i] == es[i];
    forall j | i < j < |es + [e]| ensures (es + [e])[j].key in newer { assert j < |es| ==> (es + [e])[j] == es[j]; }
  }

  /** Only the oldest entry is popped, and k is not the oldest of n + 1 when fewer than n keys can be newer. */
  lemma HeldEvict<V>(es: seq<Entry<V>>, n: nat, k: string, newer: set<string>)
    requires Distinct(es) && |es| <= n + 1 && HeldBefore(es, k, newer) && |newer| < n
    ensures HeldBefore(Evict(es, n), k, newer)
  {
    var i :| 0 <= i < |es| && es[i].key == k && forall j :: i < j < |es| ==> es[j].key in newer;
    if |es| == n + 1 {
      if i == 0 { FewKeys(es[1..], newer); }
      var r := Evict(es, n);
      assert r == es[1..];
      assert r[i - 1].key == k;
    }
  }

  lemma HeldStep<V>(es: seq<Entry<V>>, n: nat, op: Op<V>, k: string, newer: set<string>)
    requires Distinct(es) && |es| <= n && HeldBefore(es, k, newer) && |newer| < n && Spares(op, k)
    requires (op.Get? || op.Put?) && op.key != k ==> op.key in newer
    ensures HeldBefore(Step(es, n, op), k, newer)
  {
    LookupFinds(es, op.key);
    WithoutFacts(es, op.key);
    if op.key == k {
      var rest := Without(es, k);
      assert HasKey(es, k);
      var e := Entry(k, if op.Put? then op.value else Lookup(es, k).value);
      assert (rest + [e])[|rest|].key == k;
      assert HeldBefore(rest + [e], k, newer);
    } else {
      HeldWithout(es, k, newer, op.key);
      if op.Put? {
        HeldAppend(Without(es, op.key), k, newer, Entry(op.key, op.value));
        HeldEvict(Without(es, op.key) + [Entry(op.key, op.value)], n, k, newer);
      } else if op.Get? && Lookup(es, op.key).Some? {
        HeldAppend(Without(es, op.key), k, newer, Entry(op.key, Lookup(es, op.key).value));
      }
    }
  }

  lemma UsedSplits<V>(front: seq<Op<V>>, last: Op<V>, all: seq<Op<V>>)
    requires all == front + [last]
    ensures Used(front) <= Used(all)
    ensures last.Get? || last.Put? ==> last.key in Used(all)
  {
    forall x | x in Used(front) ensures x in Used(all) {
      var i :| 0 <= i < |front| && (front[i].Get? || front[i].Put?) && front[i].key == x;
      assert all[i] == front[i];
    }
    assert all[|front|] == last;
  }

  lemma {:induction false} HeldRun<V>(ops: seq<Op<V>>, more: seq<Op<V>>, n: nat, k: string, newer: set<string>)
    requires HeldBefore(Run(ops, n), k, newer) && |newer| < n && Used(more) - {k} <= newer
    requires forall i :: 0 <= i < |more| ==> Spares(more[i], k)
    ensures HeldBefore(Run(ops + more, n), k, newer)
  {
    if more == [] {
      assert ops + more == ops;
    } else {
      var front, last := more[..|more| - 1], more[|more| - 1];
      UsedSplits(front, last, more);
      HeldRun(ops, front, n, k, newer);
      RunValid(ops + front, n);
      HeldStep(Run(ops + front, n), n, last, k, newer);
      RunLast(ops + front, last, n);
      assert ops + front + [last] == ops + more;
    }
  }

  /** Residence: a key survives every trace that neither invalidates nor clears it and uses fewer than
      n distinct other keys, counted from a use that left it newest; its value is then the last one put. */
  lemma Resident<V>(ops: seq<Op<V>>, more: seq<Op<V>>, n: nat, k: string)
    requires var r := Run(ops, n); r != [] && r[|r| - 1].key == k
    requires |Used(more) - {k}| < n && forall i :: 0 <= i < |more| ==> Spares(more[i], k)
    ensures Lookup(Run(ops + more, n), k).Some? && Lookup(Run(ops + more, n), k) == LastPut(ops + more, k)
  {
    HeldRun(ops, more, n, k, Used(more) - {k});
    HeldIsLast(ops + more, n, k);
  }

  /** What is held is what was last put. */
  lemma HeldIsLast<V>(ops: seq<Op<V>>, n: nat, k: string)
    requires HasKey(Run(ops, n), k)
    ensures Lookup(Run(ops, n), k).Some? && Lookup(Run(ops, n), k) == LastPut(ops, k)
  {
    RecencyOrderAndLastValue(ops, n);
    LookupFinds(Run(ops, n), k);
    var es := Run(ops, n);
    var i :| 0 <= i < |es| && es[i] == Entry(k, Lookup(es, k).value);
    assert LastPut(ops, es[i].key) == Some(es[i].value);
  }

  ghost predicate OnlyPuts<V>(ops: seq<Op<V>>) { forall i :: 0 <= i < |ops| ==> ops[i].Put? }

  /** The keys last used after moment m. */
  ghost function UsedAfter<V>(ops: seq<Op<V>>, m: nat): set<string> {
    set x | x in Used(ops) && LastUse(ops, x) > m
  }

  lemma {:induction false} LastUseIs<V>(ops: seq<Op<V>>, k: string)
    ensures LastUse(ops, k) <= |ops| && (LastUse(ops, k) > 0 <==> k in Used(ops))
    ensures LastUse(ops, k) > 0 ==>
              var op := ops[LastUse(ops, k) - 1]; (op.Get? || op.Put?) && op.key == k
    ensures forall i :: LastUse(ops, k) <= i < |ops| ==> !((ops[i].Get? || ops[i].Put?) && ops[i].key == k)
  {
    if ops != [] {
      var front := ops[..|ops| - 1];
      LastUseIs(front, k);
      forall i | LastUse(ops, k) <= i < |ops| ensures !((ops[i].Get? || ops[i].Put?) && ops[i].key == k) {
        if i < |front| { assert front[i] == ops[i]; }
      }
    }
  }

  /** Over puts alone the cache is closed under recency: with a key it holds every key put after it. */
  lemma {:induction false} NewerAreHeld<V>(ops: seq<Op<V>>, n: nat, k: string, x: string)
    requires OnlyPuts(ops) && HasKey(Run(ops, n), k) && LastUse(ops, k) < LastUse(ops, x)
    ensures HasKey(Run(ops, n), x)
  {
    if ops != [] {
      var before, op := ops[..|ops| - 1], ops[|ops| - 1];
      RunValid(before, n);
      if x == op.key {
        NewestIsHeld(Run(before, n), n, op);
      } else {
        LastUseIs(before, x);
        var p := WasHeld(Run(before, n), n, op, k);
        NewerAreHeld(before, n, k, x);
        RecencyOrderAndLastValue(before, n);
        NewerStays(Run(before, n), op, n, before, k, x);
      }
    }
  }

  lemma NewestIsHeld<V>(es: seq<Entry<V>>, n: nat, op: Op<V>)
    requires op.Put? && Step(es, n, op) != []
    ensures HasKey(Step(es, n, op), op.key)
  {
    var r := Step(es, n, op);
    assert r[|r| - 1].key == op.key;
  }

  /** A key held after putting another one was held before. */
  lemma WasHeld<V>(es: seq<Entry<V>>, n: nat, op: Op<V>, k: string) returns (p: nat)
    requires op.Put? && k != op.key && HasKey(Step(es, n, op), k)
    ensures p < |es| && es[p].key == k && HasKey(es, k)
  {
    var all, r := Without(es, op.key) + [Entry(op.key, op.value)], Step(es, n, op);
    var i :| 0 <= i < |r| && r[i].key == k;
    assert r[i] == all[i + |all| - |r|];
    p := RestrictedFrom(es, AllBut(op.key), i + |all| - |r|);
  }

  /** Popping from the front pops nothing behind an entry that stays. */
  lemma EvictKeepsTail<V>(all: seq<Entry<V>>, n: nat, i: nat, j: nat)
    requires Distinct(all) && i < j < |all| && HasKey(Evict(all, n), all[i].key)
    ensures HasKey(Evict(all, n), all[j].key)
  {
    var r := Evict(all, n);
    var d := |all| - |r|;
    var h :| 0 <= h < |r| && r[h].key == all[i].key;
    assert r[h] == all[h + d];
    assert r[j - d] == all[j];
  }

  /** Where a key other than the one put stands before the popping. */
  lemma StandsAt<V>(es: seq<Entry<V>>, op: Op<V>, k: string) returns (i: nat)
    requires HasKey(es, k) && op.Put? && k != op.key
    ensures var rest := Without(es, op.key); i < |rest| && rest[i].key == k
  {
    var p :| 0 <= p < |es| && es[p].key == k;
    i := RestrictedTo(es, AllBut(op.key), p);
  }

  /** Putting another key pops no key used later than one that stays. */
  lemma NewerStays<V>(es: seq<Entry<V>>, op: Op<V>, n: nat, before: seq<Op<V>>, k: string, x: string)
    requires Distinct(es) && |es| <= n && SortedByUse(es, before) && op.Put? && k != op.key && x != op.key
    requires HasKey(es, k) && HasKey(es, x) && HasKey(Step(es, n, op), k) && LastUse(before, k) < LastUse(before, x)
    ensures HasKey(Step(es, n, op), x)
  {
    var rest := Without(es, op.key);
    WithoutFacts(es, op.key);
    RestrictSorted(es, before, AllBut(op.key));
    var i := StandsAt(es, op, k);
    var j := StandsAt(es, op, x);
    var all := rest + [Entry(op.key, op.value)];
    assert all[i] == rest[i] && all[j] == rest[j];
    EvictKeepsTail(all, n, i, j);
  }

  /** Fewer than n keys put after k: it is still there. */
  lemma FewNewer<V>(ops: seq<Op<V>>, n: nat, k: string)
    requires OnlyPuts(ops) && k in Used(ops) && |UsedAfter(ops, LastUse(ops, k))| < n
    ensures HasKey(Run(ops, n), k)
  {
    LastUseIs(ops, k);
    var u := LastUse(ops, k);
    var before, v, more, newer := ops[..u - 1], ops[u - 1].value, ops[u..], UsedAfter(ops, u);
    assert ops[..u] == before + [Put(k, v)] && ops[..u] + more == ops;
    PutIsHeld(before, n, k, v);
    forall x | x in Used(more) - {k} ensures x in newer {
      var i :| 0 <= i < |more| && (more[i].Get? || more[i].Put?) && more[i].key == x;
      assert ops[u + i] == more[i];
      LastUseIs(ops, x);
      assert x in Used(ops);
    }
    var r := Run(before + [Put(k, v)], n);
    assert r[|r| - 1].key == k;
    HeldRun(ops[..u], more, n, k, newer);
  }

  ghost function Keys<V>(es: seq<Entry<V>>): set<string> { set i | 0 <= i < |es| :: es[i].key }

  lemma {:induction false} AsManyKeys<V>(es: seq<Entry<V>>)
    ensures |Keys(es)| <= |es|
  {
    if es != [] {
      var front, last := es[..|es| - 1], es[|es| - 1];
      AsManyKeys(front);
      assert es == front + [last];
      assert Keys(es) == Keys(front) + {last.key};
    }
  }

  lemma {:induction false} PutIsUse<V>(ops: seq<Op<V>>, k: string)
    requires LastPut(ops, k).Some?
    ensures LastUse(ops, k) > 0
  {
    if !(ops[|ops| - 1].Put? && ops[|ops| - 1].key == k) { PutIsUse(ops[..|ops| - 1], k); }
  }

  /** A key that is held has fewer than n keys put after it: they are all held too. */
  lemma ManyNewer<V>(ops: seq<Op<V>>, n: nat, k: string)
    requires OnlyPuts(ops) && HasKey(Run(ops, n), k)
    ensures k in Used(ops) && |UsedAfter(ops, LastUse(ops, k))| < n
  {
    var r, newer := Run(ops, n), UsedAfter(ops, LastUse(ops, k));
    HeldIsLast(ops, n, k);
    PutIsUse(ops, k);
    LastUseIs(ops, k);
    forall x | x in newer ensures x in Keys(r) {
      NewerAreHeld(ops, n, k, x);
      var i :| 0 <= i < |r| && r[i].key == x;
    }
    var i :| 0 <= i < |r| && r[i].key == k;
    assert newer + {k} <= Keys(r);
    Smaller(newer + {k}, Keys(r));
    AsManyKeys(r);
    RunValid(ops, n);
  }

  lemma Smaller(a: set<string>, b: set<string>)
    requires a <= b
    ensures |a| <= |b|
  {
    assert b == a + (b - a);
  }

  /** Over puts alone, exactly: a key is held if and only if it was put and fewer than n distinct keys
      were put after it; so the cache holds the last n distinct keys put, or all when there are fewer. */
  lemma HeldExactly<V>(ops: seq<Op<V>>, n: nat, k: string)
    requires OnlyPuts(ops)
    ensures HasKey(Run(ops, n), k) <==> k in Used(ops) && |UsedAfter(ops, LastUse(ops, k))| < n
  {
    LastUseIs(ops, k);
    if k in Used(ops) && |UsedAfter(ops, LastUse(ops, k))| < n { FewNewer(ops, n, k); }
    if HasKey(Run(ops, n), k) { HeldIsLast(ops, n, k); ManyNewer(ops, n, k); }
  }

  // ---------- two caches over one trace ----------

  /** The coupling invariant: the small cache is the large one restricted to some keys,
      and the large one has at least as many free slots. */
  ghost predicate Coupled<V>(s: seq<Entry<V>>, n: nat, l: seq<Entry<V>>, m: nat, ks: iset<string>) {
    && Distinct(l) && |s| <= n && |l| <= m
    && s == Restrict(l, ks)
    && n - |s| <= m - |l|
  }

  lemma CoupledLookup<V>(s: seq<Entry<V>>, l: seq<Entry<V>>, ks: iset<string>, k: string)
    requires Distinct(l) && s == Restrict(l, ks)
    ensures Distinct(s)
    ensures HasKey(s, k) ==> HasKey(l, k) && Lookup(s, k) == Lookup(l, k) && k in ks
    ensures HasKey(l, k) && !HasKey(s, k) ==> k !in ks
  {
    RestrictDistinct(l, ks);
    if HasKey(s, k) {
      var i :| 0 <= i < |s| && s[i].key == k;
      var j := RestrictedFrom(l, ks, i);
    } else if HasKey(l, k) && k in ks {
      var j :| 0 <= j < |l| && l[j].key == k;
      var i := RestrictedTo(l, ks, j);
    }
  }

  lemma CoupledWithout<V>(s: seq<Entry<V>>, l: seq<Entry<V>>, ks: iset<string>, k: string)
    requires s == Restrict(l, ks)
    ensures Without(s, k) == Restrict(Without(l, k), ks)
  {
    RestrictTwice(l, ks, AllBut(k));
    RestrictTwice(l, AllBut(k), ks);
    assert ks * AllBut(k) == AllBut(k) * ks;
  }

  lemma CoupledEvict<V>(s: seq<Entry<V>>, n: nat, l: seq<Entry<V>>, m: nat, ks: iset<string>) returns (ls: iset<string>)
    requires Distinct(l) && s == Restrict(l, ks)
    requires |s| <= n + 1 && |l| <= m + 1 && n - |s| <= m - |l|
    ensures Coupled(Evict(s, n), n, Evict(l, m), m, ls)
  {
    ls := ks;
    if |s| == n + 1 {
      ls := ks * AllBut(s[0].key);
      CoupledPop(l, ks);
      if |l| == m + 1 { CoupledPopBoth(l, ks, ls); }
    }
  }

  /** Popping the small cache alone: one key fewer to restrict to. */
  lemma CoupledPop<V>(l: seq<Entry<V>>, ks: iset<string>)
    requires Distinct(l) && Restrict(l, ks) != []
    ensures Restrict(l, ks * AllBut(Restrict(l, ks)[0].key)) == Restrict(l, ks)[1..]
  {
    var s := Restrict(l, ks);
    RestrictDistinct(l, ks);
    RemoveAt(s, 0);
    RestrictTwice(l, ks, AllBut(s[0].key));
  }

  /** When the large cache pops too, the key it loses is already out of the small one. */
  lemma CoupledPopBoth<V>(l: seq<Entry<V>>, ks: iset<string>, ls: iset<string>)
    requires Distinct(l) && Restrict(l, ks) != [] && ls == ks * AllBut(Restrict(l, ks)[0].key)
    ensures Restrict(l[1..], ls) == Restrict(l, ls)
  {
    RestrictTail(l, ks);
    RestrictTail(l, ls);
    assert l[0].key in ks ==> Restrict(l, ks)[0] == l[0];
    assert l[0].key !in ls;
    assert [] + Restrict(l[1..], ls) == Restrict(l[1..], ls);
  }

  /** Both caches move the key to the end. */
  lemma CoupledHit<V>(s: seq<Entry<V>>, n: nat, l: seq<Entry<V>>, m: nat, ks: iset<string>, e: Entry<V>)
    requires Coupled(s, n, l, m, ks) && HasKey(s, e.key) && HasKey(l, e.key) && e.key in ks
    ensures Coupled(Without(s, e.key) + [e], n, Without(l, e.key) + [e], m, ks)
  {
    CoupledWithout(s, l, ks, e.key);
    RestrictDistinct(l, ks);
    WithoutFacts(s, e.key);
    WithoutFacts(l, e.key);
    assert (Without(l, e.key) + [e])[..|l| - 1] == Without(l, e.key);
  }

  /** Only the large cache does: the small one has no such key. */
  lemma CoupledMiss<V>(s: seq<Entry<V>>, n: nat, l: seq<Entry<V>>, m: nat, ks: iset<string>, e: Entry<V>)
    requires Coupled(s, n, l, m, ks) && !HasKey(s, e.key) && HasKey(l, e.key) && e.key !in ks
    ensures Coupled(s, n, Without(l, e.key) + [e], m, ks)
  {
    CoupledWithout(s, l, ks, e.key);
    RestrictDistinct(l, ks);
    WithoutFacts(s, e.key);
    WithoutFacts(l, e.key);
    assert (Without(l, e.key) + [e])[..|l| - 1] == Without(l, e.key);
    assert s + [] == s;
  }

  lemma CoupledGet<V>(s: seq<Entry<V>>, n: nat, l: seq<Entry<V>>, m: nat, ks: iset<string>, k: string)
    requires Coupled(s, n, l, m, ks)
    ensures Coupled(AfterGet(s, k), n, AfterGet(l, k), m, ks)
  {
    CoupledLookup(s, l, ks, k);
    LookupFinds(s, k);
    LookupFinds(l, k);
    if HasKey(s, k) {
      CoupledHit(s, n, l, m, ks, Entry(k, Lookup(l, k).value));
    } else if HasKey(l, k) {
      CoupledMiss(s, n, l, m, ks, Entry(k, Lookup(l, k).value));
    }
  }

  lemma CoupledPut<V>(s: seq<Entry<V>>, n: nat, l: seq<Entry<V>>, m: nat, ks: iset<string>, k: string, v: V)
    returns (ls: iset<string>)
    requires Coupled(s, n, l, m, ks)
    ensures Coupled(AfterPut(s, n, k, v), n, AfterPut(l, m, k, v), m, ls)
  {
    CoupledLookup(s, l, ks, k);
    CoupledWithout(s, l, ks, k);
    WithoutFacts(s, k);
    WithoutFacts(l, k);
    var all := ks + iset{k};
    RestrictAgree(Without(l, k), all, ks);
    ls := CoupledEvict(Without(s, k) + [Entry(k, v)], n, Without(l, k) + [Entry(k, v)], m, all);
  }

  lemma {:induction false} CoupledRun<V>(ops: seq<Op<V>>, n: nat, m: nat) returns (ks: iset<string>)
    requires n <= m
    ensures Coupled(Run(ops, n), n, Run(ops, m), m, ks)
  {
    ks := iset{};
    if ops != [] {
      var before, op := ops[..|ops| - 1], ops[|ops| - 1];
      var s, l := Run(before, n), Run(before, m);
      ks := CoupledRun(before, n, m);
      match op
      case Get(k) => CoupledGet(s, n, l, m, ks, k);
      case Put(k, v) => ks := CoupledPut(s, n, l, m, ks, k, v);
      case Invalidate(k) =>
        CoupledLookup(s, l, ks, k);
        CoupledWithout(s, l, ks, k);
        WithoutFacts(s, k);
        WithoutFacts(l, k);
      case Clear =>
    }
  }

  /** LRU inclusion.  After any trace, the recency order of the smaller cache is a subsequence
      of the larger one's, every hit of the smaller is a hit of the larger with the same value,
      and the larger has at least as many free slots. */
  lemma Inclusion<V>(ops: seq<Op<V>>, n: nat, m: nat)
    requires n <= m
    ensures Subsequence(Run(ops, n), Run(ops, m))
    ensures forall k :: Lookup(Run(ops, n), k).Some? ==> Lookup(Run(ops, m), k) == Lookup(Run(ops, n), k)
    ensures n - |Run(ops, n)| <= m - |Run(ops, m)|
  {
    var ks := CoupledRun(ops, n, m);
    var s, l := Run(ops, n), Run(ops, m);
    RestrictionIsSubsequence(l, ks);
    forall k | Lookup(s, k).Some? ensures Lookup(l, k) == Lookup(s, k) {
      CoupledLookup(s, l, ks, k);
      LookupFinds(s, k);
    }
  }

  /** No Belady anomaly: enlarging the cache never loses hits on any trace. */
  lemma {:induction false} MoreRoomMoreHits<V>(ops: seq<Op<V>>, n: nat, m: nat)
    requires n <= m
    ensures Hits(ops, n) <= Hits(ops, m)
  {
    if ops != [] {
      MoreRoomMoreHits(ops[..|ops| - 1], n, m);
      Inclusion(ops[..|ops| - 1], n, m);
    }
  }
}
