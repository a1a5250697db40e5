/** Batched embedding with recovery: a rejected batch is bisected until the rejected items stand
    alone, and those are retried in truncated form.  The provider, the text normaliser and the
    tokenizer are functions the service is given. */
module EmbeddingRecovery {
  import opened Wrappers

  type Vec = seq<real>

  datatype Item = Item(index: nat, text: string)

  /** One request: vectors, an HTTP 400, or any other failure. */
  datatype Reply = Vectors(vectors: seq<Vec>) | BadRequest | Failed

  datatype Failure = NotConfigured | RequestFailed

  datatype Settings = Settings(
    ready: bool, batchSize: nat, outputDimension: nat, maxInputTokens: nat,
    provider: seq<string> -> Reply, normalize: string -> string,
    tokens: string -> int, truncate: (string, int) -> string)
  {
    predicate Valid() { batchSize >= 1 && outputDimension >= 1 && maxInputTokens >= 256 }

    function ZeroVector(): Vec { seq(outputDimension, _ => 0.0) }

    /** A reply of the wrong length is an error, like any other malformed reply. */
    function Request(texts: seq<string>): Reply {
      match provider(texts)
      case Vectors(vs) => if |vs| == |texts| then Vectors(vs) else Failed
      case other => other
    }

    function Prepare(text: string): string { truncate(text, maxInputTokens) }

    function Budgets(text: string): seq<int> {
      var count := tokens(text);
      var first := if maxInputTokens * 3 / 4 < count - 1 then maxInputTokens * 3 / 4 else count - 1;
      Usable([first, maxInputTokens / 2, maxInputTokens / 4], count)
    }

    static function Usable(budgets: seq<int>, count: int): (r: seq<int>)
      ensures |r| <= |budgets|
    {
      if budgets == [] then []
      else (if 0 < budgets[0] < count then [budgets[0]] else []) + Usable(budgets[1..], count)
    }

    function Reduced(text: string, budgets: seq<int>, seen: seq<string>): seq<string> {
      if budgets == [] then seen
      else
        var reduced := truncate(text, budgets[0]);
        Reduced(text, budgets[1..],
                if reduced != "" && reduced != text && reduced !in seen then seen + [reduced] else seen)
    }

    /** The truncated forms tried for a rejected text, in order. */
    function Candidates(text: string): seq<string> { Reduced(text, Budgets(text), []) }
  }

  // ---------- the recovery as a function of the provider ----------

  /** What a recovery returns, and the requests it sent. */
  datatype Run<+T> = Run(result: Result<T, Failure>, log: seq<seq<string>>)

  function Texts(batch: seq<Item>): (r: seq<string>)
    ensures |r| == |batch|
    ensures forall k :: 0 <= k < |r| ==> r[k] == batch[k].text
  {
    seq(|batch|, k requires 0 <= k < |batch| => batch[k].text)
  }

  function Zip(batch: seq<Item>, vs: seq<Vec>): map<nat, Vec>
    requires |batch| == |vs|
  {
    if batch == [] then map[] else map[batch[0].index := vs[0]] + Zip(batch[1..], vs[1..])
  }

  function RecoverSingle(s: Settings, candidates: seq<string>): Run<Vec> {
    if candidates == [] then Run(Ok(s.ZeroVector()), [])
    else
      match s.Request([candidates[0]])
      case Vectors(vs) => Run(Ok(vs[0]), [[candidates[0]]])
      case Failed => Run(Err(RequestFailed), [[candidates[0]]])
      case BadRequest =>
        var rest := RecoverSingle(s, candidates[1..]);
        Run(rest.result, [[candidates[0]]] + rest.log)
  }

  function RecoverBatch(s: Settings, batch: seq<Item>): Run<map<nat, Vec>>
    requires batch != []
    decreases |batch|
  {
    var texts := Texts(batch);
    match s.Request(texts)
    case Vectors(vs) => Run(Ok(Zip(batch, vs)), [texts])
    case Failed => Run(Err(RequestFailed), [texts])
    case BadRequest =>
      if |batch| == 1 then
        var single := RecoverSingle(s, s.Candidates(batch[0].text));
        Run(match single.result case Ok(v) => Ok(map[batch[0].index := v]) case Err(e) => Err(e), [texts] + single.log)
      else
        var mid := Middle(|batch|);
        var left := RecoverBatch(s, batch[..mid]);
        if left.result.Err? then Run(Err(left.result.error), [texts] + left.log)
        else
          var right := RecoverBatch(s, batch[mid..]);
          Run(match right.result case Ok(r) => Ok(left.result.value + r) case Err(e) => Err(e),
              [texts] + left.log + right.log)
  }

  function Middle(n: nat): (mid: nat)
    requires n >= 2
    ensures 1 <= mid <= n - mid
  {
    if n / 2 > 1 then n / 2 else 1
  }

  // ---------- a provider that judges texts one by one ----------

  /** The provider rejects exactly the batches that hold a bad text and otherwise embeds each
      text on its own. */
  ghost predicate Itemwise(s: Settings, bad: string -> bool, emb: string -> Vec) {
    forall texts :: Judged(s, bad, emb, texts)
  }

  ghost predicate Judged(s: Settings, bad: string -> bool, emb: string -> Vec, texts: seq<string>) {
    s.provider(texts) == if exists t :: t in texts && bad(t) then BadRequest else Vectors(Each(emb, texts))
  }

  ghost function Each(emb: string -> Vec, texts: seq<string>): (r: seq<Vec>)
    ensures |r| == |texts|
    ensures forall k :: 0 <= k < |r| ==> r[k] == emb(texts[k])
  {
    if texts == [] then [] else [emb(texts[0])] + Each(emb, texts[1..])
  }

  /** Embedding one text on its own: the reference the batched path refines. */
  ghost function Alone(s: Settings, bad: string -> bool, emb: string -> Vec, text: string): Vec {
    if !bad(text) then emb(text) else FirstGood(s, bad, emb, s.Candidates(text))
  }

  ghost function FirstGood(s: Settings, bad: string -> bool, emb: string -> Vec, candidates: seq<string>): Vec {
    if candidates == [] then s.ZeroVector()
    else if !bad(candidates[0]) then emb(candidates[0])
    else FirstGood(s, bad, emb, candidates[1..])
  }

  ghost function Reference(s: Settings, bad: string -> bool, emb: string -> Vec): string -> Vec {
    t => Alone(s, bad, emb, t)
  }

  /** `m` holds exactly the indices of the batch, each with the vector `f` gives its text. */
  ghost predicate Maps(m: map<nat, Vec>, batch: seq<Item>, f: string -> Vec) {
    && (forall k :: 0 <= k < |batch| ==> batch[k].index in m && m[batch[k].index] == f(batch[k].text))
    && (forall i :: i in m ==> exists k :: 0 <= k < |batch| && batch[k].index == i)
  }

  ghost function BadCount(bad: string -> bool, batch: seq<Item>): nat {
    if batch == [] then 0 else (if bad(batch[0].text) then 1 else 0) + BadCount(bad, batch[1..])
  }

  ghost predicate DistinctIndices(batch: seq<Item>) {
    forall i, j :: 0 <= i < j < |batch| ==> batch[i].index != batch[j].index
  }

  lemma {:induction false} BadCountSplit(bad: string -> bool, batch: seq<Item>, mid: nat)
    requires mid <= |batch|
    ensures BadCount(bad, batch) == BadCount(bad, batch[..mid]) + BadCount(bad, batch[mid..])
  {
    if mid > 0 {
      BadCountSplit(bad, batch[1..], mid - 1);
      assert batch[..mid][1..] == batch[1..][..mid - 1];
    }
  }

  lemma {:induction false} BadCountZero(bad: string -> bool, batch: seq<Item>)
    ensures BadCount(bad, batch) == 0 <==> forall t :: t in Texts(batch) ==> !bad(t)
  {
    if batch != [] {
      BadCountZero(bad, batch[1..]);
      assert Texts(batch) == [batch[0].text] + Texts(batch[1..]);
    }
  }

  lemma {:induction false} ZipMaps(batch: seq<Item>, vs: seq<Vec>, f: string -> Vec)
    requires DistinctIndices(batch) && |vs| == |batch|
    requires forall k :: 0 <= k < |batch| ==> vs[k] == f(batch[k].text)
    ensures Maps(Zip(batch, vs), batch, f)
  {
    if batch != [] {
      var rest := Zip(batch[1..], vs[1..]);
      ZipMaps(batch[1..], vs[1..], f);
      forall k | 0 < k < |batch|
        ensures batch[k].index in rest && rest[batch[k].index] == f(batch[k].text)
      {
        assert batch[1..][k - 1] == batch[k];
      }
      forall i | i in rest ensures exists k :: 0 < k < |batch| && batch[k].index == i {
        var k :| 0 <= k < |batch| - 1 && batch[1..][k].index == i;
        assert batch[k + 1].index == i;
      }
    }
  }

  lemma MapsJoin(l: map<nat, Vec>, r: map<nat, Vec>, batch: seq<Item>, mid: nat, f: string -> Vec)
    requires mid <= |batch| && DistinctIndices(batch)
    requires Maps(l, batch[..mid], f) && Maps(r, batch[mid..], f)
    ensures Maps(l + r, batch, f)
  {
    forall k | 0 <= k < |batch|
      ensures batch[k].index in l + r && (l + r)[batch[k].index] == f(batch[k].text)
    {
      if k < mid {
        assert batch[..mid][k] == batch[k];
        forall j | 0 <= j < |batch| - mid ensures batch[mid..][j].index != batch[k].index {}
      } else {
        assert batch[mid..][k - mid] == batch[k];
      }
    }
    forall i | i in l + r ensures exists k :: 0 <= k < |batch| && batch[k].index == i {
      if i in l {
        var k :| 0 <= k < mid && batch[..mid][k].index == i;
        assert batch[k].index == i;
      } else {
        var k :| 0 <= k < |batch| - mid && batch[mid..][k].index == i;
        assert batch[mid + k].index == i;
      }
    }
  }

  lemma {:induction false} SingleIsFirstGood(s: Settings, bad: string -> bool, emb: string -> Vec,
                                             candidates: seq<string>)
    requires Itemwise(s, bad, emb)
    ensures RecoverSingle(s, candidates).result == Ok(FirstGood(s, bad, emb, candidates))
    ensures |RecoverSingle(s, candidates).log| <= |candidates|
  {
    if candidates != [] {
      var one := [candidates[0]];
      assert candidates[0] in one;
      assert Judged(s, bad, emb, one);
      assert s.provider(one) == if bad(candidates[0]) then BadRequest else Vectors(Each(emb, one));
      if bad(candidates[0]) { SingleIsFirstGood(s, bad, emb, candidates[1..]); }
    }
  }

  lemma {:induction false} ReducedFacts(s: Settings, text: string, budgets: seq<int>, seen: seq<string>)
    requires forall i, j :: 0 <= i < j < |seen| ==> seen[i] != seen[j]
    requires forall i :: 0 <= i < |seen| ==> seen[i] != "" && seen[i] != text
    ensures var r := s.Reduced(text, budgets, seen);
            && |r| <= |seen| + |budgets|
            && (forall i, j :: 0 <= i < j < |r| ==> r[i] != r[j])
            && (forall i :: 0 <= i < |r| ==> r[i] != "" && r[i] != text)
  {
    if budgets != [] {
      var reduced := s.truncate(text, budgets[0]);
      ReducedFacts(s, text, budgets[1..],
                   if reduced != "" && reduced != text && reduced !in seen then seen + [reduced] else seen);
    }
  }

  /** A rejected text is retried in at most three forms: distinct, non-empty and different from the text. */
  lemma AtMostThreeCandidates(s: Settings, text: string)
    ensures var c := s.Candidates(text);
            && |c| <= 3
            && (forall i, j :: 0 <= i < j < |c| ==> c[i] != c[j])
            && (forall i :: 0 <= i < |c| ==> c[i] != "" && c[i] != text)
  {
    ReducedFacts(s, text, s.Budgets(text), []);
  }

  /** How deep bisection goes. */
  ghost function Depth(n: nat): nat {
    if n < 2 then 0 else 1 + Depth(n - Middle(n))
  }

  lemma {:induction false} DepthMonotone(m: nat, n: nat)
    requires m <= n
    ensures Depth(m) <= Depth(n)
    decreases n
  {
    if m >= 2 { DepthMonotone(m - Middle(m), n - Middle(n)); }
  }

  lemma {:induction false} DepthIsLogarithmic(n: nat, k: nat)
    requires n <= Power2(k)
    ensures Depth(n) <= k
    decreases k
  {
    if n >= 2 { DepthIsLogarithmic(n - Middle(n), k - 1); }
  }

  ghost function Power2(k: nat): nat { if k == 0 then 1 else 2 * Power2(k - 1) }

  lemma ItemwiseRequest(s: Settings, bad: string -> bool, emb: string -> Vec, batch: seq<Item>)
    requires Itemwise(s, bad, emb)
    ensures s.Request(Texts(batch)) ==
            if BadCount(bad, batch) == 0 then Vectors(Each(emb, Texts(batch))) else BadRequest
  {
    BadCountZero(bad, batch);
    assert Judged(s, bad, emb, Texts(batch));
  }

  lemma CleanBatch(s: Settings, bad: string -> bool, emb: string -> Vec, batch: seq<Item>)
    requires batch != [] && DistinctIndices(batch) && BadCount(bad, batch) == 0
    ensures Maps(Zip(batch, Each(emb, Texts(batch))), batch, Reference(s, bad, emb))
  {
    var texts := Texts(batch);
    BadCountZero(bad, batch);
    forall k | 0 <= k < |batch| ensures Each(emb, texts)[k] == Reference(s, bad, emb)(batch[k].text) {
      assert texts[k] in texts;
    }
    ZipMaps(batch, Each(emb, texts), Reference(s, bad, emb));
  }

  /** A rejected batch that is not a single: the two halves, one after the other. */
  lemma HalvesOf(s: Settings, batch: seq<Item>)
    requires |batch| > 1 && s.Request(Texts(batch)) == BadRequest
    requires RecoverBatch(s, batch[..Middle(|batch|)]).result.Ok?
    requires RecoverBatch(s, batch[Middle(|batch|)..]).result.Ok?
    ensures var l, r := RecoverBatch(s, batch[..Middle(|batch|)]), RecoverBatch(s, batch[Middle(|batch|)..]);
            RecoverBatch(s, batch) == Run(Ok(l.result.value + r.result.value), [Texts(batch)] + l.log + r.log)
  {
  }

  lemma SingleOf(s: Settings, bad: string -> bool, emb: string -> Vec, batch: seq<Item>)
    requires Itemwise(s, bad, emb) && |batch| == 1 && BadCount(bad, batch) > 0
    ensures BadCount(bad, batch) == 1 && bad(batch[0].text)
    ensures RecoverBatch(s, batch).result == Ok(map[batch[0].index := Alone(s, bad, emb, batch[0].text)])
    ensures |RecoverBatch(s, batch).log| <= 4
  {
    ItemwiseRequest(s, bad, emb, batch);
    assert batch[1..] == [];
    AtMostThreeCandidates(s, batch[0].text);
    SingleIsFirstGood(s, bad, emb, s.Candidates(batch[0].text));
  }

  lemma BisectionStep(s: Settings, batch: seq<Item>, f: string -> Vec)
    requires |batch| > 1 && s.Request(Texts(batch)) == BadRequest && DistinctIndices(batch)
    requires var l, r := batch[..Middle(|batch|)], batch[Middle(|batch|)..];
             && RecoverBatch(s, l).result.Ok? && Maps(RecoverBatch(s, l).result.value, l, f)
             && RecoverBatch(s, r).result.Ok? && Maps(RecoverBatch(s, r).result.value, r, f)
    ensures RecoverBatch(s, batch).result.Ok? && Maps(RecoverBatch(s, batch).result.value, batch, f)
  {
    var mid := Middle(|batch|);
    HalvesOf(s, batch);
    MapsJoin(RecoverBatch(s, batch[..mid]).result.value, RecoverBatch(s, batch[mid..]).result.value, batch, mid, f);
  }

  /** The bisecting recovery refines per-item embedding: every good text gets its own vector at its
      own index, every bad one what it would get alone. */
  lemma {:induction false} BisectionRefinesPerItem(s: Settings, bad: string -> bool, emb: string -> Vec,
                                                   batch: seq<Item>)
    requires Itemwise(s, bad, emb) && batch != [] && DistinctIndices(batch)
    ensures RecoverBatch(s, batch).result.Ok?
    ensures Maps(RecoverBatch(s, batch).result.value, batch, Reference(s, bad, emb))
    decreases |batch|
  {
    ItemwiseRequest(s, bad, emb, batch);
    if BadCount(bad, batch) == 0 {
      CleanBatch(s, bad, emb, batch);
    } else if |batch| == 1 {
      SingleOf(s, bad, emb, batch);
    } else {
      var l, r := batch[..Middle(|batch|)], batch[Middle(|batch|)..];
      BisectionRefinesPerItem(s, bad, emb, l);
      BisectionRefinesPerItem(s, bad, emb, r);
      BisectionStep(s, batch, Reference(s, bad, emb));
    }
  }

  /** How many requests bisection sends: it goes on only where there is a bad text. */
  ghost function Cost(bad: string -> bool, retries: string -> nat, batch: seq<Item>): nat
    decreases |batch|
  {
    if BadCount(bad, batch) == 0 then 1
    else if |batch| == 1 then 1 + retries(batch[0].text)
    else 1 + Cost(bad, retries, batch[..Middle(|batch|)]) + Cost(bad, retries, batch[Middle(|batch|)..])
  }

  ghost function Retries(s: Settings): string -> nat { t => |RecoverSingle(s, s.Candidates(t)).log| }

  lemma {:induction false} CostIsLogLength(s: Settings, bad: string -> bool, emb: string -> Vec, batch: seq<Item>)
    requires Itemwise(s, bad, emb) && batch != [] && DistinctIndices(batch)
    ensures |RecoverBatch(s, batch).log| == Cost(bad, Retries(s), batch)
    decreases |batch|
  {
    ItemwiseRequest(s, bad, emb, batch);
    if |batch| > 1 && BadCount(bad, batch) > 0 {
      var l, r := batch[..Middle(|batch|)], batch[Middle(|batch|)..];
      CostIsLogLength(s, bad, emb, l);
      CostIsLogLength(s, bad, emb, r);
      BisectionRefinesPerItem(s, bad, emb, l);
      BisectionRefinesPerItem(s, bad, emb, r);
      HalvesOf(s, batch);
    } else if |batch| == 1 && BadCount(bad, batch) > 0 {
      SingleOf(s, bad, emb, batch);
    }
  }

  ghost function Budget(b: nat, d: nat): nat {
    if b == 0 then 1 else Budget(b - 1, d) + 2 * d + 3
  }

  lemma {:induction false} BudgetIs(b: nat, d: nat)
    ensures Budget(b, d) == 1 + b * (2 * d + 3)
  {
    if b > 0 { BudgetIs(b - 1, d); }
  }

  /** The bound of two halves fits in the bound of the whole, one level up. */
  lemma {:induction false} BudgetJoin(l: nat, r: nat, depthL: nat, depthR: nat)
    requires depthL <= depthR && l + r >= 1
    ensures 1 + Budget(l, depthL) + Budget(r, depthR) <= Budget(l + r, depthR + 1)
  {
    if l > 0 && l + r > 1 {
      BudgetJoin(l - 1, r, depthL, depthR);
    } else if l == 0 && r > 1 {
      BudgetJoin(0, r - 1, depthL, depthR);
    }
  }

  lemma DepthHalves(n: nat)
    requires n >= 2
    ensures Depth(n) == Depth(n - Middle(n)) + 1 && Depth(Middle(n)) <= Depth(n - Middle(n))
  {
    DepthMonotone(Middle(n), n - Middle(n));
  }

  /** Both bounds, for a cost of n texts of which b are bad, bisected to depth d. */
  ghost predicate Affordable(cost: int, n: nat, b: nat, d: nat) {
    cost <= 2 * n - 1 + 3 * b && cost <= Budget(b, d)
  }

  lemma AffordBoth(costL: nat, costR: nat, l: nat, r: nat, badL: nat, badR: nat, depthL: nat, depthR: nat)
    requires Affordable(costL, l, badL, depthL) && Affordable(costR, r, badR, depthR)
    requires depthL <= depthR && badL + badR >= 1
    ensures Affordable(1 + costL + costR, l + r, badL + badR, depthR + 1)
  {
    BudgetJoin(badL, badR, depthL, depthR);
  }

  lemma {:induction false} CostBounds(bad: string -> bool, retries: string -> nat, batch: seq<Item>)
    requires batch != [] && forall t :: retries(t) <= 3
    ensures Affordable(Cost(bad, retries, batch), |batch|, BadCount(bad, batch), Depth(|batch|))
    decreases |batch|
  {
    if BadCount(bad, batch) == 0 {
    } else if |batch| == 1 {
      assert batch[1..] == [];
      assert Budget(1, 0) == Budget(0, 0) + 3;
    } else {
      var mid := Middle(|batch|);
      var l, r := batch[..mid], batch[mid..];
      CostBounds(bad, retries, l);
      CostBounds(bad, retries, r);
      BadCountSplit(bad, batch, mid);
      DepthHalves(|batch|);
      AffordBoth(Cost(bad, retries, l), Cost(bad, retries, r), |l|, |r|, BadCount(bad, l), BadCount(bad, r),
                 Depth(|l|), Depth(|r|));
    }
  }

  lemma RetriesAtMostThree(s: Settings, bad: string -> bool, emb: string -> Vec)
    requires Itemwise(s, bad, emb)
    ensures forall t :: Retries(s)(t) <= 3
  {
    forall t ensures Retries(s)(t) <= 3 {
      AtMostThreeCandidates(s, t);
      SingleIsFirstGood(s, bad, emb, s.Candidates(t));
    }
  }

  /** What it costs: b bad texts among n take at most 2n - 1 + 3b requests, and at most
      Budget(b, Depth(n)) = 1 + b(2 Depth(n) + 3), where Depth is logarithmic. */
  lemma BisectionCost(s: Settings, bad: string -> bool, emb: string -> Vec, batch: seq<Item>)
    requires Itemwise(s, bad, emb) && batch != [] && DistinctIndices(batch)
    ensures |RecoverBatch(s, batch).log| <= 2 * |batch| - 1 + 3 * BadCount(bad, batch)
    ensures |RecoverBatch(s, batch).log| <= Budget(BadCount(bad, batch), Depth(|batch|))
  {
    CostIsLogLength(s, bad, emb, batch);
    RetriesAtMostThree(s, bad, emb);
    CostBounds(bad, Retries(s), batch);
  }

  lemma Associate<T>(a: seq<T>, b: seq<T>, c: seq<T>)
    ensures a + b + c == a + (b + c)
  {
  }

  lemma {:induction false} ZipKeys(batch: seq<Item>, vs: seq<Vec>, i: nat)
    requires |vs| == |batch| && i in Zip(batch, vs)
    ensures exists k :: 0 <= k < |batch| && batch[k].index == i
  {
    if i == batch[0].index {
    } else {
      ZipKeys(batch[1..], vs[1..], i);
      var k :| 0 <= k < |batch| - 1 && batch[1..][k].index == i;
      assert batch[k + 1].index == i;
    }
  }

  /** Whatever the provider does, a recovery writes only to positions of its own batch. */
  lemma {:induction false} RecoveredKeys(s: Settings, batch: seq<Item>, i: nat)
    requires batch != [] && RecoverBatch(s, batch).result.Ok? && i in RecoverBatch(s, batch).result.value
    ensures exists k :: 0 <= k < |batch| && batch[k].index == i
    decreases |batch|
  {
    match s.Request(Texts(batch))
    case Vectors(vs) => ZipKeys(batch, vs, i);
    case Failed =>
    case BadRequest =>
      if |batch| > 1 {
        var mid := Middle(|batch|);
        if i in RecoverBatch(s, batch[mid..]).result.value {
          RecoveredKeys(s, batch[mid..], i);
          var k :| 0 <= k < |batch| - mid && batch[mid..][k].index == i;
          assert batch[mid + k].index == i;
        } else {
          RecoveredKeys(s, batch[..mid], i);
          var k :| 0 <= k < mid && batch[..mid][k].index == i;
          assert batch[k].index == i;
        }
      }
  }

  /** What position i of the answer must hold, whatever the batch size. */
  ghost function Expected(s: Settings, bad: string -> bool, emb: string -> Vec, text: string): Vec {
    var normalized := s.normalize(text);
    if normalized == "" then s.ZeroVector() else Alone(s, bad, emb, s.Prepare(normalized))
  }

  /** The non-blank texts before position n, prepared, in order. */
  ghost predicate PendingFor(s: Settings, texts: seq<string>, n: nat, pending: seq<Item>)
    requires n <= |texts|
  {
    && (forall k :: 0 <= k < |pending| ==> (pending[k].index < n
                      && s.normalize(texts[pending[k].index]) != ""
                      && pending[k].text == s.Prepare(s.normalize(texts[pending[k].index]))))
    && (forall j, k :: 0 <= j < k < |pending| ==> pending[j].index < pending[k].index)
    && (forall i :: 0 <= i < n && s.normalize(texts[i]) != "" ==>
          exists k :: 0 <= k < |pending| && pending[k].index == i)
  }

  // ---------- the answer to a list of texts ----------

  /** The non-blank texts, prepared, with their positions. */
  function Pending(s: Settings, texts: seq<string>): seq<Item> {
    if texts == [] then []
    else
      var n := |texts| - 1;
      Pending(s, texts[..n]) + if s.normalize(texts[n]) != "" then [Item(n, s.Prepare(s.normalize(texts[n])))] else []
  }

  function NextStart(s: Settings, pending: seq<Item>, start: nat): (stop: nat)
    requires s.Valid() && start < |pending|
    ensures start < stop <= |pending|
  {
    if start + s.batchSize < |pending| then start + s.batchSize else |pending|
  }

  function Join(m: map<nat, Vec>, rest: Result<map<nat, Vec>, Failure>): Result<map<nat, Vec>, Failure> {
    match rest
    case Ok(r) => Ok(m + r)
    case Err(e) => Err(e)
  }

  /** Recovering the batches from `start` on, one after the other; the first failure ends it. */
  function RecoverFrom(s: Settings, pending: seq<Item>, start: nat): Result<map<nat, Vec>, Failure>
    requires s.Valid() && start <= |pending|
    decreases |pending| - start
  {
    if start == |pending| then Ok(map[])
    else
      var stop := NextStart(s, pending, start);
      match RecoverBatch(s, pending[start..stop]).result
      case Err(e) => Err(e)
      case Ok(m) => Join(m, RecoverFrom(s, pending, stop))
  }

  type Recovery = seq<Item> -> Run<map<nat, Vec>>

  function RecoveryOf(s: Settings): Recovery {
    (batch: seq<Item>) => if batch == [] then Run(Ok(map[]), []) else RecoverBatch(s, batch)
  }

  /** The requests those batches send: no more after a failure. */
  function LogFrom(s: Settings, run: Recovery, pending: seq<Item>, start: nat): seq<seq<string>>
    requires s.Valid() && start <= |pending|
    decreases |pending| - start
  {
    if start == |pending| then []
    else
      var stop := NextStart(s, pending, start);
      var one := run(pending[start..stop]);
      one.log + if one.result.Ok? then LogFrom(s, run, pending, stop) else []
  }

  function Filling(s: Settings, n: nat, m: map<nat, Vec>): seq<Vec> {
    seq(n, i requires 0 <= i < n => if i in m then m[i] else s.ZeroVector())
  }

  /** The whole answer: recovered vectors at their positions, zero vectors elsewhere. */
  function Answer(s: Settings, texts: seq<string>): Result<seq<Vec>, Failure>
    requires s.Valid()
  {
    if !s.ready then Err(NotConfigured)
    else
      match RecoverFrom(s, Pending(s, texts), 0)
      case Ok(m) => Ok(Filling(s, |texts|, m))
      case Err(e) => Err(e)
  }

  /** Everything one call sends. */
  function AnswerLog(s: Settings, texts: seq<string>): seq<seq<string>>
    requires s.Valid()
  {
    if s.ready then LogFrom(s, RecoveryOf(s), Pending(s, texts), 0) else []
  }

  lemma JoinJoin(a: map<nat, Vec>, b: map<nat, Vec>, rest: Result<map<nat, Vec>, Failure>)
    ensures Join(a, Join(b, rest)) == Join(a + b, rest)
  {
    if rest.Ok? { assert a + (b + rest.value) == (a + b) + rest.value; }
  }

  lemma JoinNothing(rest: Result<map<nat, Vec>, Failure>)
    ensures Join(map[], rest) == rest
  {
    if rest.Ok? { assert map[] + rest.value == rest.value; }
  }

  lemma {:induction false} PendingIs(s: Settings, texts: seq<string>)
    ensures PendingFor(s, texts, |texts|, Pending(s, texts))
  {
    if texts != [] {
      var n := |texts| - 1;
      PendingIs(s, texts[..n]);
      PendingStep(s, texts, n, Pending(s, texts[..n]), Pending(s, texts));
    }
  }

  lemma MapsAppend(l: map<nat, Vec>, r: map<nat, Vec>, a: seq<Item>, b: seq<Item>, f: string -> Vec)
    requires DistinctIndices(a + b) && Maps(l, a, f) && Maps(r, b, f)
    ensures Maps(l + r, a + b, f)
  {
    assert (a + b)[..|a|] == a && (a + b)[|a|..] == b;
    MapsJoin(l, r, a + b, |a|, f);
  }

  lemma SlicesMeet(pending: seq<Item>, start: nat, stop: nat)
    requires start <= stop <= |pending| && DistinctIndices(pending)
    ensures pending[start..stop] + pending[stop..] == pending[start..]
    ensures DistinctIndices(pending[start..]) && DistinctIndices(pending[start..stop])
  {
  }

  lemma RefinesStep(s: Settings, bad: string -> bool, emb: string -> Vec, pending: seq<Item>, start: nat, stop: nat,
                    head: seq<Item>, rest: map<nat, Vec>)
    requires Itemwise(s, bad, emb) && DistinctIndices(pending)
    requires start < stop <= |pending| && head == pending[start..stop]
    requires Maps(rest, pending[stop..], Reference(s, bad, emb))
    ensures RecoverBatch(s, head).result.Ok?
    ensures Maps(RecoverBatch(s, head).result.value + rest, pending[start..], Reference(s, bad, emb))
  {
    SlicesMeet(pending, start, stop);
    BisectionRefinesPerItem(s, bad, emb, head);
    MapsAppend(RecoverBatch(s, head).result.value, rest, head, pending[stop..], Reference(s, bad, emb));
  }

  /** Against a provider that judges texts one by one, the batches together give every item what it
      would get alone. */
  lemma {:induction false} RecoverFromRefines(s: Settings, bad: string -> bool, emb: string -> Vec,
                                              pending: seq<Item>, start: nat)
    requires s.Valid() && Itemwise(s, bad, emb) && DistinctIndices(pending) && start <= |pending|
    ensures RecoverFrom(s, pending, start).Ok?
    ensures Maps(RecoverFrom(s, pending, start).value, pending[start..], Reference(s, bad, emb))
    decreases |pending| - start
  {
    if start < |pending| {
      var stop := NextStart(s, pending, start);
      RecoverFromRefines(s, bad, emb, pending, stop);
      RefinesStep(s, bad, emb, pending, start, stop, pending[start..stop], RecoverFrom(s, pending, stop).value);
    }
  }

  /** The batched path refines embedding each text on its own: the answer is as long as the input,
      every good text has its own vector at its own position, every rejected one what it would get
      alone, and blank ones the zero vector. */
  lemma AnswerIsPerItem(s: Settings, bad: string -> bool, emb: string -> Vec, texts: seq<string>)
    requires s.Valid() && s.ready && Itemwise(s, bad, emb)
    ensures Answer(s, texts).Ok? && |Answer(s, texts).value| == |texts|
    ensures forall i :: 0 <= i < |texts| ==> Answer(s, texts).value[i] == Expected(s, bad, emb, texts[i])
  {
    var pending := Pending(s, texts);
    PendingIs(s, texts);
    RecoverFromRefines(s, bad, emb, pending, 0);
    assert pending[0..] == pending;
    FillingIs(s, bad, emb, texts, pending, RecoverFrom(s, pending, 0).value);
  }

  // ---------- what a call costs ----------

  /** How many batches there are from `start` on. */
  ghost function Batches(s: Settings, pending: seq<Item>, start: nat): nat
    requires s.Valid() && start <= |pending|
    decreases |pending| - start
  {
    if start == |pending| then 0 else 1 + Batches(s, pending, NextStart(s, pending, start))
  }

  /** Their number is the number of items over the batch size, rounded up. */
  lemma {:induction false} BatchesIs(s: Settings, pending: seq<Item>, start: nat)
    requires s.Valid() && start <= |pending|
    ensures |pending| - start <= Batches(s, pending, start) * s.batchSize
    ensures start < |pending| ==> (Batches(s, pending, start) - 1) * s.batchSize < |pending| - start
    decreases |pending| - start
  {
    if start < |pending| {
      var stop, c := NextStart(s, pending, start), Batches(s, pending, start) - 1;
      BatchesIs(s, pending, stop);
      assert c == Batches(s, pending, stop) && (c + 1) * s.batchSize == c * s.batchSize + s.batchSize;
      assert stop < |pending| ==> (c - 1) * s.batchSize == c * s.batchSize - s.batchSize;
    }
  }

  lemma {:induction false} BudgetMonotone(b: nat, d: nat, e: nat)
    requires d <= e
    ensures Budget(b, d) <= Budget(b, e)
  {
    if b > 0 { BudgetMonotone(b - 1, d, e); }
  }

  lemma {:induction false} BudgetAdd(l: nat, r: nat, d: nat)
    ensures Budget(l, d) + Budget(r, d) == Budget(l + r, d) + 1
  {
    if l > 0 { BudgetAdd(l - 1, r, d); }
  }

  /** One batch, within both bounds at the depth of a full batch. */
  lemma BatchCost(s: Settings, bad: string -> bool, emb: string -> Vec, batch: seq<Item>)
    requires s.Valid() && Itemwise(s, bad, emb) && 1 <= |batch| <= s.batchSize && DistinctIndices(batch)
    ensures CheapBatch(RecoveryOf(s), CountOf(bad), Depth(s.batchSize), batch)
  {
    BisectionRefinesPerItem(s, bad, emb, batch);
    BisectionCost(s, bad, emb, batch);
    DepthMonotone(|batch|, s.batchSize);
    BudgetMonotone(BadCount(bad, batch), Depth(|batch|), Depth(s.batchSize));
  }

  /** Both bounds, for a cost of n texts in m batches of which b are bad. */
  ghost predicate CallAffordable(cost: nat, n: nat, b: nat, m: nat, d: nat) {
    cost + m <= 2 * n + 3 * b && cost + 1 <= Budget(b, d) + m
  }

  lemma AffordOneMore(costL: nat, costR: nat, l: nat, r: nat, badL: nat, badR: nat, m: nat, d: nat)
    requires Affordable(costL, l, badL, d) && CallAffordable(costR, r, badR, m, d)
    ensures CallAffordable(costL + costR, l + r, badL + badR, m + 1, d)
  {
    BudgetAdd(badL, badR, d);
  }

  lemma BadCountSlices(bad: string -> bool, pending: seq<Item>, start: nat, stop: nat)
    requires start <= stop <= |pending|
    ensures BadCount(bad, pending[start..]) == BadCount(bad, pending[start..stop]) + BadCount(bad, pending[stop..])
  {
    BadCountSplit(bad, pending[start..], stop - start);
    assert pending[start..][..stop - start] == pending[start..stop];
    assert pending[start..][stop - start..] == pending[stop..];
  }

  type Count = seq<Item> -> nat

  ghost function CountOf(bad: string -> bool): Count { batch => BadCount(bad, batch) }

  /** Counting a tail of `pending` in two parts. */
  ghost predicate Additive(count: Count, pending: seq<Item>) {
    && count([]) == 0
    && forall i, j :: 0 <= i <= j <= |pending| ==> count(pending[i..]) == count(pending[i..j]) + count(pending[j..])
  }

  ghost predicate CheapBatch(run: Recovery, count: Count, d: nat, batch: seq<Item>) {
    run(batch).result.Ok? && Affordable(|run(batch).log|, |batch|, count(batch), d)
  }

  ghost predicate CheapBatches(s: Settings, run: Recovery, count: Count, d: nat, pending: seq<Item>) {
    forall i, j :: 0 <= i < j <= |pending| && j - i <= s.batchSize ==> CheapBatch(run, count, d, pending[i..j])
  }

  lemma {:induction false} LogBounds(s: Settings, run: Recovery, count: Count, d: nat, pending: seq<Item>, start: nat)
    requires s.Valid() && CheapBatches(s, run, count, d, pending) && Additive(count, pending) && start <= |pending|
    ensures CallAffordable(|LogFrom(s, run, pending, start)|, |pending| - start, count(pending[start..]),
                           Batches(s, pending, start), d)
    decreases |pending| - start
  {
    if start == |pending| {
      assert pending[start..] == [];
    } else {
      var stop := NextStart(s, pending, start);
      var head := pending[start..stop];
      LogBounds(s, run, count, d, pending, stop);
      assert CheapBatch(run, count, d, head);
      AffordOneMore(|run(head).log|, |LogFrom(s, run, pending, stop)|, stop - start, |pending| - stop,
                    count(head), count(pending[stop..]), Batches(s, pending, stop), d);
    }
  }

  lemma BatchesAreCheap(s: Settings, bad: string -> bool, emb: string -> Vec, pending: seq<Item>)
    requires s.Valid() && Itemwise(s, bad, emb) && DistinctIndices(pending)
    ensures CheapBatches(s, RecoveryOf(s), CountOf(bad), Depth(s.batchSize), pending)
    ensures Additive(CountOf(bad), pending)
  {
    forall i, j | 0 <= i < j <= |pending| && j - i <= s.batchSize
      ensures CheapBatch(RecoveryOf(s), CountOf(bad), Depth(s.batchSize), pending[i..j])
    {
      SlicesMeet(pending, i, j);
      BatchCost(s, bad, emb, pending[i..j]);
    }
    forall i, j | 0 <= i <= j <= |pending|
      ensures CountOf(bad)(pending[i..]) == CountOf(bad)(pending[i..j]) + CountOf(bad)(pending[j..])
    {
      BadCountSlices(bad, pending, i, j);
    }
  }

  /** What a whole call costs: for n non-blank texts, b of them bad, in m batches, at most 2n - m + 3b
      requests, and at most m - 1 + Budget(b, d) = m + b(2d + 3) for the depth d of a full batch; so
      one request per batch when no text is bad. */
  lemma AnswerCost(s: Settings, bad: string -> bool, emb: string -> Vec, texts: seq<string>)
    requires s.Valid() && s.ready && Itemwise(s, bad, emb)
    ensures var n, b, m := |Pending(s, texts)|, BadCount(bad, Pending(s, texts)), Batches(s, Pending(s, texts), 0);
            && |AnswerLog(s, texts)| <= 2 * n - m + 3 * b
            && |AnswerLog(s, texts)| <= m - 1 + Budget(b, Depth(s.batchSize))
  {
    var pending := Pending(s, texts);
    PendingIs(s, texts);
    BatchesAreCheap(s, bad, emb, pending);
    LogBounds(s, RecoveryOf(s), CountOf(bad), Depth(s.batchSize), pending, 0);
    assert pending[0..] == pending;
  }

  lemma FillingIs(s: Settings, bad: string -> bool, emb: string -> Vec, texts: seq<string>, pending: seq<Item>,
                  m: map<nat, Vec>)
    requires PendingFor(s, texts, |texts|, pending) && Maps(m, pending, Reference(s, bad, emb))
    ensures forall i :: 0 <= i < |texts| ==> Filling(s, |texts|, m)[i] == Expected(s, bad, emb, texts[i])
  {
    forall i | 0 <= i < |texts| ensures Filling(s, |texts|, m)[i] == Expected(s, bad, emb, texts[i]) {
      if s.normalize(texts[i]) != "" {
        var k :| 0 <= k < |pending| && pending[k].index == i;
        assert m[pending[k].index] == Reference(s, bad, emb)(pending[k].text);
      }
    }
  }

  lemma {:induction false} ReducedSame(s: Settings, t: Settings, text: string, budgets: seq<int>, seen: seq<string>)
    requires t.truncate == s.truncate
    ensures t.Reduced(text, budgets, seen) == s.Reduced(text, budgets, seen)
  {
    if budgets != [] {
      var reduced := s.truncate(text, budgets[0]);
      ReducedSame(s, t, text, budgets[1..],
                  if reduced != "" && reduced != text && reduced !in seen then seen + [reduced] else seen);
    }
  }

  lemma {:induction false} FirstGoodSame(s: Settings, t: Settings, bad: string -> bool, emb: string -> Vec,
                                         candidates: seq<string>)
    requires t.outputDimension == s.outputDimension
    ensures FirstGood(t, bad, emb, candidates) == FirstGood(s, bad, emb, candidates)
  {
    if candidates != [] { FirstGoodSame(s, t, bad, emb, candidates[1..]); }
  }

  lemma ExpectedSame(s: Settings, t: Settings, bad: string -> bool, emb: string -> Vec, text: string)
    requires t == s.(batchSize := t.batchSize)
    ensures Expected(t, bad, emb, text) == Expected(s, bad, emb, text)
  {
    var prepared := s.Prepare(s.normalize(text));
    ReducedSame(s, t, prepared, s.Budgets(prepared), []);
    FirstGoodSame(s, t, bad, emb, s.Candidates(prepared));
  }

  /** The answer is the same for every batch size. */
  lemma BatchSizeIsIrrelevant(s: Settings, t: Settings, bad: string -> bool, emb: string -> Vec, texts: seq<string>)
    requires s.Valid() && s.ready && Itemwise(s, bad, emb) && t.Valid() && t == s.(batchSize := t.batchSize)
    ensures Answer(t, texts) == Answer(s, texts)
  {
    forall ts ensures Judged(t, bad, emb, ts) { assert Judged(s, bad, emb, ts); }
    AnswerIsPerItem(s, bad, emb, texts);
    AnswerIsPerItem(t, bad, emb, texts);
    var a, b := Answer(s, texts).value, Answer(t, texts).value;
    forall i | 0 <= i < |texts| ensures a[i] == b[i] { ExpectedSame(s, t, bad, emb, texts[i]); }
    assert a == b;
  }

  lemma PendingNext(s: Settings, texts: seq<string>, i: nat)
    requires i < |texts|
    ensures Pending(s, texts[..i + 1]) ==
            Pending(s, texts[..i])
            + if s.normalize(texts[i]) != "" then [Item(i, s.Prepare(s.normalize(texts[i])))] else []
  {
    assert texts[..i + 1][..i] == texts[..i];
  }

  // ---------- the service ----------

  class EmbeddingService {
    const settings: Settings
    /** The requests sent so far. */
    var log: seq<seq<string>>

    constructor (settings: Settings)
      requires settings.Valid()
      ensures this.settings == settings && log == []
    {
      this.settings := settings;
      log := [];
    }

    method RequestEmbeddings(texts: seq<string>) returns (reply: Reply)
      modifies this`log
      ensures reply == settings.Request(texts) && log == old(log) + [texts]
    {
      reply := settings.Request(texts);
      log := log + [texts];
    }

    method RecoverSingleEmbedding(item: Item) returns (r: Result<Vec, Failure>)
      modifies this`log
      ensures var run := RecoverSingle(settings, settings.Candidates(item.text));
              r == run.result && log == old(log) + run.log
    {
      var candidates := settings.Candidates(item.text);
      ghost var run := RecoverSingle(settings, candidates);
      for k := 0 to |candidates|
        invariant var rest := RecoverSingle(settings, candidates[k..]);
                  run.result == rest.result && old(log) + run.log == log + rest.log
      {
        ghost var rest := RecoverSingle(settings, candidates[k..]);
        var before := log;
        var reply := RequestEmbeddings([candidates[k]]);
        match reply
        case Vectors(vs) => return Ok(vs[0]);
        case Failed => return Err(RequestFailed);
        case BadRequest =>
          assert before + rest.log == log + RecoverSingle(settings, candidates[k + 1..]).log;
      }
      return Ok(settings.ZeroVector());
    }

    method EmbedWithRecovery(batch: seq<Item>) returns (r: Result<map<nat, Vec>, Failure>)
      requires batch != []
      modifies this`log
      ensures var run := RecoverBatch(settings, batch); r == run.result && log == old(log) + run.log
      decreases |batch|
    {
      var texts := Texts(batch);
      var reply := RequestEmbeddings(texts);
      match reply
      case Vectors(vs) => return Ok(Zip(batch, vs));
      case Failed => return Err(RequestFailed);
      case BadRequest =>
        if |batch| == 1 {
          var single := RecoverSingleEmbedding(batch[0]);
          if single.Err? { return Err(single.error); }
          return Ok(map[batch[0].index := single.value]);
        }
        var mid := Middle(|batch|);
        ghost var start := old(log);
        ghost var runL := RecoverBatch(settings, batch[..mid]);
        var left := EmbedWithRecovery(batch[..mid]);
        Associate(start, [texts], runL.log);
        if left.Err? { return left; }
        ghost var runR := RecoverBatch(settings, batch[mid..]);
        var right := EmbedWithRecovery(batch[mid..]);
        Associate(start, [texts] + runL.log, runR.log);
        if right.Err? { return right; }
        r := Ok(left.value + right.value);
    }

    /** The loop over a recovered batch's items. */
    static method StoreAll(results: seq<Vec>, m: map<nat, Vec>) returns (stored: seq<Vec>)
      requires forall i :: i in m ==> i < |results|
      ensures |stored| == |results|
      ensures forall i :: 0 <= i < |stored| ==> stored[i] == if i in m then m[i] else results[i]
    {
      stored := results;
      var rest := m.Keys;
      while rest != {}
        invariant rest <= m.Keys && |stored| == |results|
        invariant forall i :: 0 <= i < |stored| ==> stored[i] == if i in m && i !in rest then m[i] else results[i]
        decreases |rest|
      {
        var i :| i in rest;
        stored := stored[i := m[i]];
        rest := rest - {i};
      }
    }

    method EmbedBatch(texts: seq<string>) returns (r: Result<seq<Vec>, Failure>)
      requires settings.Valid()
      modifies this`log
      ensures r == Answer(settings, texts) && log == old(log) + AnswerLog(settings, texts)
    {
      if !settings.ready {
        assert log + AnswerLog(settings, texts) == log;
        return Err(NotConfigured);
      }
      var pending: seq<Item> := [];
      for i := 0 to |texts|
        invariant pending == Pending(settings, texts[..i]) && log == old(log)
      {
        PendingNext(settings, texts, i);
        var normalized := settings.normalize(texts[i]);
        if normalized != "" { pending := pending + [Item(i, settings.Prepare(normalized))]; }
      }
      assert texts[..|texts|] == texts;
      PendingIs(settings, texts);
      r := EmbedPending(|texts|, pending);
    }

    /** The loop over batches. */
    method EmbedPending(n: nat, pending: seq<Item>) returns (r: Result<seq<Vec>, Failure>)
      requires settings.Valid() && forall k :: 0 <= k < |pending| ==> pending[k].index < n
      modifies this`log
      ensures r == match RecoverFrom(settings, pending, 0)
                   case Ok(m) => Ok(Filling(settings, n, m))
                   case Err(e) => Err(e)
      ensures log == old(log) + LogFrom(settings, RecoveryOf(settings), pending, 0)
    {
      var results := seq(n, _ => settings.ZeroVector());
      var start: nat := 0;
      ghost var run, goal := RecoveryOf(settings), RecoverFrom(settings, pending, 0);
      ghost var done: map<nat, Vec> := map[];
      JoinNothing(goal);
      while start < |pending|
        invariant start <= |pending|
        invariant goal == Join(done, RecoverFrom(settings, pending, start)) && results == Filling(settings, n, done)
        invariant old(log) + LogFrom(settings, run, pending, 0) == log + LogFrom(settings, run, pending, start)
      {
        var stop := NextStart(settings, pending, start);
        ghost var sent := RecoverBatch(settings, pending[start..stop]).log;
        Associate(log, sent, LogFrom(settings, run, pending, stop));
        assert sent + [] == sent;
        var step := EmbedSlice(pending, start, stop, results);
        if step.Err? { return Err(step.error); }
        ghost var m := RecoverBatch(settings, pending[start..stop]).result.value;
        JoinJoin(done, m, RecoverFrom(settings, pending, stop));
        results := step.value;
        done := done + m;
        start := stop;
      }
      assert done + map[] == done;
      r := Ok(results);
    }

    /** One turn of the batch loop. */
    method EmbedSlice(pending: seq<Item>, start: nat, stop: nat, results: seq<Vec>)
      returns (r: Result<seq<Vec>, Failure>)
      requires start < stop <= |pending| && forall k :: 0 <= k < |pending| ==> pending[k].index < |results|
      modifies this`log
      ensures log == old(log) + RecoverBatch(settings, pending[start..stop]).log
      ensures match RecoverBatch(settings, pending[start..stop]).result
              case Err(e) => r == Err(e)
              case Ok(m) =>
                && r.Ok? && |r.value| == |results|
                && forall i :: 0 <= i < |results| ==> r.value[i] == if i in m then m[i] else results[i]
    {
      var recovered := EmbedWithRecovery(pending[start..stop]);
      if recovered.Err? { return Err(recovered.error); }
      RecoveredInRange(settings, pending, start, stop, |results|);
      var stored := StoreAll(results, recovered.value);
      r := Ok(stored);
    }
  }

  lemma RecoveredInRange(s: Settings, pending: seq<Item>, start: nat, stop: nat, n: nat)
    requires start < stop <= |pending| && RecoverBatch(s, pending[start..stop]).result.Ok?
    requires forall k :: 0 <= k < |pending| ==> pending[k].index < n
    ensures forall i :: i in RecoverBatch(s, pending[start..stop]).result.value ==> i < n
  {
    forall i | i in RecoverBatch(s, pending[start..stop]).result.value ensures i < n {
      RecoveredKeys(s, pending[start..stop], i);
    }
  }

  lemma PendingStep(s: Settings, texts: seq<string>, n: nat, before: seq<Item>, after: seq<Item>)
    requires n < |texts| && PendingFor(s, texts, n, before)
    requires after == before + if s.normalize(texts[n]) != "" then [Item(n, s.Prepare(s.normalize(texts[n])))] else []
    ensures PendingFor(s, texts, n + 1, after)
  {
    forall i | 0 <= i < n + 1 && s.normalize(texts[i]) != ""
      ensures exists k :: 0 <= k < |after| && after[k].index == i
    {
      if i < n {
        var k :| 0 <= k < |before| && before[k].index == i;
        assert after[k].index == i;
      } else {
        assert after[|before|].index == n;
      }
    }
  }
}
