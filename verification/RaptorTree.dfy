/** The adaptive RAPTOR tree: leaves grouped into clusters, clusters into topics, a root, and
    incremental updates that attach new leaves to the nearest cluster.  The numeric clustering
    (linkage, silhouette, labels, means, cosine) is given by functions. */
module RaptorTree {
  import opened Wrappers
  import Ranking

  type Vector = seq<real>

  /** The numerics: whether the linkage can be computed, the silhouette score of a cut (none when the
      cut is degenerate or the score raises), the labels of a cut, means, and similarity. */
  datatype Env = Env(
    links: seq<Vector> -> bool, score: (seq<Vector>, int) -> Option<real>,
    labels: (seq<Vector>, int) -> seq<int>, mean: seq<Vector> -> Vector,
    similarity: (Vector, Vector) -> real)

  /** A cut labels every vector. */
  ghost predicate Proper(env: Env) {
    forall vs, k :: |env.labels(vs, k)| == |vs|
  }

  // ---------- the range of cluster counts ----------

  function Min(a: int, b: int): int { if a <= b then a else b }

  function Max(a: int, b: int): int { if a >= b then a else b }

  function KRange(minK: int, count: nat): (int, int) {
    var maxK := Min(Max(minK + 1, count / 3), count - 1);
    if minK >= maxK then (2, Max(3, count / 2)) else (minK, maxK)
  }

  /** The range is never empty and never asks for more clusters than items; the requested minimum
      is kept exactly when it is below count - 1.  A range reaching the number of items, one
      cluster each, arises only for three of them. */
  lemma KRangeFacts(minK: int, count: nat)
    requires count >= 3
    ensures var (lo, hi) := KRange(minK, count);
            && lo < hi <= count
            && (if minK < count - 1 then lo == minK else lo == 2 && hi == Max(3, count / 2))
            && (hi == count <==> count == 3 && minK >= 2)
            && (lo >= 2 <==> minK >= 2)
  {
  }

  /** The upper end, when the minimum is kept: the largest count below the number of items that leaves three
      items to a cluster or is just one above the minimum. */
  lemma KRangeEnd(minK: int, count: nat, k: int)
    requires count >= 3 && minK < count - 1
    ensures KRange(minK, count).0 == minK
    ensures k <= KRange(minK, count).1 <==> k <= count - 1 && (k <= minK + 1 || 3 * k <= count)
  {
  }

  /** Otherwise the range is from two clusters to one for every two items, and to three at least. */
  lemma KRangeFallback(minK: int, count: nat, k: int)
    requires count >= 3 && minK >= count - 1
    ensures KRange(minK, count).0 == 2
    ensures k <= KRange(minK, count).1 <==> k <= 3 || 2 * k <= count
  {
  }

  /** The best cut seen from lo to hi, and its score; -1 when none beats it. */
  function Best(score: int -> Option<real>, lo: int, hi: int): (int, real)
    decreases hi - lo
  {
    if hi < lo then (lo, -1.0)
    else
      var (k, s) := Best(score, lo, hi - 1);
      if score(hi).Some? && score(hi).value > s then (hi, score(hi).value) else (k, s)
  }

  lemma {:induction false} BestIsFirstMaximum(score: int -> Option<real>, lo: int, hi: int)
    ensures var (k, s) := Best(score, lo, hi);
            && s >= -1.0 && lo <= k <= Max(lo, hi)
            && (forall j :: lo <= j <= hi && score(j).Some? ==> score(j).value <= s)
            && (if s == -1.0 then k == lo
                else score(k) == Some(s) && forall j :: lo <= j < k && score(j).Some? ==> score(j).value < s)
    decreases hi - lo
  {
    if hi >= lo { BestIsFirstMaximum(score, lo, hi - 1); }
  }

  method ChooseK(env: Env, vectors: seq<Vector>, minK: int) returns (bestK: int)
    requires |vectors| >= 3
    ensures bestK == ChosenK(env, vectors, minK)
  {
    var (lo, hi) := KRange(minK, |vectors|);
    KRangeFacts(minK, |vectors|);
    ghost var score := (k: int) => env.score(vectors, k);
    bestK := lo;
    var bestScore := -1.0;
    for k := lo to hi + 1
      invariant (bestK, bestScore) == Best(score, lo, k - 1)
    {
      var s := env.score(vectors, k);
      assert s == score(k);
      if s.Some? && s.value > bestScore {
        bestScore := s.value;
        bestK := k;
      }
    }
  }

  function ChosenK(env: Env, vectors: seq<Vector>, minK: int): int
    requires |vectors| >= 3
  {
    Best(k => env.score(vectors, k), KRange(minK, |vectors|).0, KRange(minK, |vectors|).1).0
  }

  // ---------- grouping by label ----------

  /** The items carrying label `l`, in order. */
  function Select<T>(items: seq<T>, labels: seq<int>, l: int): seq<T>
    requires |labels| <= |items|
  {
    if labels == [] then []
    else
      var n := |labels| - 1;
      Select(items, labels[..n], l) + if labels[n] == l then [items[n]] else []
  }

  /** The labels in order of first appearance. */
  function Appearing(labels: seq<int>): seq<int> {
    if labels == [] then []
    else
      var before, l := Appearing(labels[..|labels| - 1]), labels[|labels| - 1];
      if l in before then before else before + [l]
  }

  function Groups<T>(items: seq<T>, labels: seq<int>): seq<seq<T>>
    requires |labels| <= |items|
  {
    seq(|Appearing(labels)|, i requires 0 <= i < |Appearing(labels)| => Select(items, labels, Appearing(labels)[i]))
  }

  function Flatten<T>(gs: seq<seq<T>>): seq<T> {
    if gs == [] then [] else Flatten(gs[..|gs| - 1]) + gs[|gs| - 1]
  }

  lemma {:induction false} FlattenUpdate<T>(gs: seq<seq<T>>, p: nat, x: T)
    requires p < |gs|
    ensures multiset(Flatten(gs[p := gs[p] + [x]])) == multiset(Flatten(gs)) + multiset{x}
  {
    var hs := gs[p := gs[p] + [x]];
    if p == |gs| - 1 {
      assert hs[..p] == gs[..p];
    } else {
      var front := gs[..|gs| - 1];
      FlattenUpdate(front, p, x);
      assert hs[..|gs| - 1] == front[p := front[p] + [x]];
      assert multiset(Flatten(hs)) == multiset(Flatten(hs[..|gs| - 1])) + multiset(gs[|gs| - 1]);
    }
  }

  lemma {:induction false} AppearingFacts(labels: seq<int>)
    ensures forall l :: l in Appearing(labels) <==> l in labels
    ensures forall i, j :: 0 <= i < j < |Appearing(labels)| ==> Appearing(labels)[i] != Appearing(labels)[j]
  {
    if labels != [] {
      AppearingFacts(labels[..|labels| - 1]);
      assert labels == labels[..|labels| - 1] + [labels[|labels| - 1]];
    }
  }

  lemma {:induction false} SelectNone<T>(items: seq<T>, labels: seq<int>, l: int)
    requires |labels| <= |items| && l !in labels
    ensures Select(items, labels, l) == []
  {
    if labels != [] { SelectNone(items, labels[..|labels| - 1], l); }
  }

  /** One more labelled item joins its label's group, or opens a new one at the end. */
  lemma GroupsStep<T>(items: seq<T>, labels: seq<int>)
    requires 0 < |labels| <= |items|
    ensures var n := |labels| - 1;
            var before, known := Groups(items, labels[..n]), Appearing(labels[..n]);
            if labels[n] in known then
              exists p :: 0 <= p < |known| && known[p] == labels[n]
                       && Groups(items, labels) == before[p := before[p] + [items[n]]]
            else Groups(items, labels) == before + [[items[n]]]
  {
    var n := |labels| - 1;
    var before, known := Groups(items, labels[..n]), Appearing(labels[..n]);
    AppearingFacts(labels[..n]);
    if labels[n] in known {
      var p :| 0 <= p < |known| && known[p] == labels[n];
      var after := before[p := before[p] + [items[n]]];
      assert Appearing(labels) == known;
      forall i | 0 <= i < |known| ensures Select(items, labels, known[i]) == after[i] {
        assert before[i] == Select(items, labels[..n], known[i]);
      }
      assert Groups(items, labels) == after;
    } else {
      SelectNone(items, labels[..n], labels[n]);
      var after := before + [[items[n]]];
      assert Appearing(labels) == known + [labels[n]];
      forall i | 0 <= i <= |known| ensures Select(items, labels, Appearing(labels)[i]) == after[i] {
        if i < |known| {
          assert before[i] == Select(items, labels[..n], known[i]) && known[i] in known;
        }
      }
      assert Groups(items, labels) == after;
    }
  }

  /** What one more item does to a flattened grouping. */
  lemma GroupsGrow<T>(items: seq<T>, labels: seq<int>)
    requires 0 < |labels| <= |items|
    ensures var n := |labels| - 1;
            multiset(Flatten(Groups(items, labels))) ==
              multiset(Flatten(Groups(items, labels[..n]))) + multiset{items[n]}
  {
    var n := |labels| - 1;
    var before := Groups(items, labels[..n]);
    GroupsStep(items, labels);
    if labels[n] in Appearing(labels[..n]) {
      var p :| 0 <= p < |before| && Groups(items, labels) == before[p := before[p] + [items[n]]];
      FlattenUpdate(before, p, items[n]);
    } else {
    }
  }

  lemma TakeOne<T>(items: seq<T>, n: nat)
    requires n < |items|
    ensures multiset(items[..n + 1]) == multiset(items[..n]) + multiset{items[n]}
  {
    assert items[..n + 1] == items[..n] + [items[n]];
  }

  lemma {:induction false} PrefixPartition<T>(items: seq<T>, labels: seq<int>, n: nat)
    requires n <= |labels| <= |items|
    ensures multiset(Flatten(Groups(items, labels[..n]))) == multiset(items[..n])
  {
    if n > 0 {
      PrefixPartition(items, labels, n - 1);
      assert labels[..n][..n - 1] == labels[..n - 1];
      GroupsGrow(items, labels[..n]);
      TakeOne(items, n - 1);
    }
  }

  /** Grouping partitions the items that have a label, however many items there are. */
  lemma GroupsPartition<T>(items: seq<T>, labels: seq<int>)
    requires |labels| <= |items|
    ensures multiset(Flatten(Groups(items, labels))) == multiset(items[..|labels|])
  {
    PrefixPartition(items, labels, |labels|);
    assert labels[..|labels|] == labels;
  }

  method GroupByLabel<T>(items: seq<T>, labels: seq<int>) returns (groups: seq<seq<T>>)
    requires |labels| <= |items|
    ensures groups == Groups(items, labels)
  {
    groups := [];
    var order: seq<int> := [];
    for n := 0 to |labels|
      invariant order == Appearing(labels[..n]) && groups == Groups(items, labels[..n])
    {
      GroupsStep(items, labels[..n + 1]);
      assert labels[..n + 1][..n] == labels[..n];
      AppearingFacts(labels[..n]);
      var p := 0;
      while p < |order| && order[p] != labels[n]
        invariant p <= |order| && forall q :: 0 <= q < p ==> order[q] != labels[n]
      {
        p := p + 1;
      }
      if p < |order| {
        groups := groups[p := groups[p] + [items[n]]];
      } else {
        order := order + [labels[n]];
        groups := groups + [[items[n]]];
      }
    }
    assert labels[..|labels|] == labels;
  }

  /** Clustering: one group of everything when there is too little to cluster or the linkage fails. */
  function Clustered<T>(env: Env, vectors: seq<Vector>, items: seq<T>, minK: int): seq<seq<T>>
    requires Proper(env) && |vectors| <= |items|
  {
    if |vectors| < 3 || !env.links(vectors) then [items]
    else Groups(items, env.labels(vectors, ChosenK(env, vectors, minK)))
  }

  method AdaptiveCluster<T>(env: Env, vectors: seq<Vector>, items: seq<T>, minK: int) returns (groups: seq<seq<T>>)
    requires Proper(env) && |vectors| <= |items|
    ensures groups == Clustered(env, vectors, items, minK)
  {
    if |vectors| < 3 || !env.links(vectors) { return [items]; }
    var bestK := ChooseK(env, vectors, minK);
    groups := GroupByLabel(items, env.labels(vectors, bestK));
  }

  /** The items a clustering covers: the first |vectors| of them, or all. */
  lemma ClusteredCovers<T>(env: Env, vectors: seq<Vector>, items: seq<T>, minK: int)
    requires Proper(env) && |vectors| <= |items|
    ensures var covered := if |vectors| < 3 || !env.links(vectors) then items else items[..|vectors|];
            multiset(Flatten(Clustered(env, vectors, items, minK))) == multiset(covered)
  {
    if |vectors| < 3 || !env.links(vectors) {
      assert [items][..0] == [];
      assert Flatten([items]) == Flatten<T>([]) + items;
    } else {
      var labels := env.labels(vectors, ChosenK(env, vectors, minK));
      GroupsPartition(items, labels);
    }
  }

  // ---------- the tree ----------

  datatype Leaf = Leaf(id: string, paper: string, embedding: Vector)

  datatype NodeId = LeafId(id: string) | ClusterId(index: nat) | TopicId(index: nat) | RootId

  datatype Node = Node(id: NodeId, embedding: Vector, children: seq<NodeId>, papers: set<string>, level: nat)

  datatype AnyNode = LeafNode(leaf: Leaf) | Inner(node: Node)

  datatype Tree = Tree(leaves: seq<Leaf>, clusters: seq<Node>, topics: seq<Node>, root: Option<Node>,
                       allNodes: seq<AnyNode>)

  datatype Error = RaggedVectors

  function LeafIds(ls: seq<Leaf>): seq<NodeId> { seq(|ls|, i requires 0 <= i < |ls| => LeafId(ls[i].id)) }

  function LeafPapers(ls: seq<Leaf>): set<string> { set i | 0 <= i < |ls| :: ls[i].paper }

  function LeafVectors(ls: seq<Leaf>): seq<Vector> { seq(|ls|, i requires 0 <= i < |ls| => ls[i].embedding) }

  function Embedded(ls: seq<Leaf>): (r: seq<Leaf>)
    ensures |r| <= |ls|
  {
    if ls == [] then [] else Embedded(ls[..|ls| - 1]) + if ls[|ls| - 1].embedding != [] then [ls[|ls| - 1]] else []
  }

  lemma {:induction false} EmbeddedAll(ls: seq<Leaf>)
    ensures |Embedded(ls)| == |ls| <==> forall i :: 0 <= i < |ls| ==> ls[i].embedding != []
    ensures |Embedded(ls)| == |ls| ==> Embedded(ls) == ls
  {
    if ls != [] { EmbeddedAll(ls[..|ls| - 1]); }
  }

  function NodeIds(ns: seq<Node>): seq<NodeId> { seq(|ns|, i requires 0 <= i < |ns| => ns[i].id) }

  function NodePapers(ns: seq<Node>): set<string> { set i, p | 0 <= i < |ns| && p in ns[i].papers :: p }

  function NodeVectors(ns: seq<Node>): seq<Vector> { seq(|ns|, i requires 0 <= i < |ns| => ns[i].embedding) }

  /** An array of the vectors, or their mean, exists only when they have one length. */
  predicate Uniform(vs: seq<Vector>) { forall i, j :: 0 <= i < j < |vs| ==> |vs[i]| == |vs[j]| }

  function ClusterNode(env: Env, i: nat, group: seq<Leaf>): Node {
    Node(ClusterId(i), env.mean(LeafVectors(group)), LeafIds(group), LeafPapers(group), 1)
  }

  function ClusterNodes(env: Env, groups: seq<seq<Leaf>>): seq<Node> {
    seq(|groups|, i requires 0 <= i < |groups| => ClusterNode(env, i, groups[i]))
  }

  function TopicNode(env: Env, i: nat, group: seq<Node>): Node {
    Node(TopicId(i), env.mean(NodeVectors(group)), NodeIds(group), NodePapers(group), 2)
  }

  function TopicNodes(env: Env, groups: seq<seq<Node>>): seq<Node> {
    seq(|groups|, i requires 0 <= i < |groups| => TopicNode(env, i, groups[i]))
  }

  function RootNode(env: Env, top: seq<Node>): Node {
    Node(RootId, env.mean(NodeVectors(top)), NodeIds(top), NodePapers(top), 3)
  }

  function Gathered(leaves: seq<Leaf>, clusters: seq<Node>, topics: seq<Node>, root: Option<Node>): seq<AnyNode> {
    seq(|leaves|, i requires 0 <= i < |leaves| => LeafNode(leaves[i]))
    + seq(|clusters|, i requires 0 <= i < |clusters| => Inner(clusters[i]))
    + seq(|topics|, i requires 0 <= i < |topics| => Inner(topics[i]))
    + if root.Some? then [Inner(root.value)] else []
  }

  function MakeTree(leaves: seq<Leaf>, clusters: seq<Node>, topics: seq<Node>, root: Option<Node>): Tree {
    Tree(leaves, clusters, topics, root, Gathered(leaves, clusters, topics, root))
  }

  function Levels(t: Tree): nat {
    if t.root.Some? then 4 else if t.topics != [] then 3 else if t.clusters != [] then 2 else 1
  }

  function LeafGroups(env: Env, leaves: seq<Leaf>, minClusters: int): seq<seq<Leaf>>
    requires Proper(env)
  {
    Clustered(env, LeafVectors(Embedded(leaves)), leaves, minClusters)
  }

  function Topics(env: Env, clusters: seq<Node>, maxLevels: int): seq<Node>
    requires Proper(env)
  {
    if |clusters| < 3 || maxLevels < 3 then []
    else TopicNodes(env, Clustered(env, NodeVectors(clusters), clusters, 2))
  }

  function Root(env: Env, top: seq<Node>, maxLevels: int): Option<Node> {
    if top != [] && maxLevels >= 4 then Some(RootNode(env, top)) else None
  }

  function Built(env: Env, leaves: seq<Leaf>, minClusters: int, maxLevels: int): Result<Tree, Error>
    requires Proper(env)
  {
    if !Uniform(LeafVectors(Embedded(leaves))) then Err(RaggedVectors)
    else if |Embedded(leaves)| < 3 then Ok(MakeTree(leaves, [], [], None))
    else
      var groups := LeafGroups(env, leaves, minClusters);
      var clusters := ClusterNodes(env, groups);
      var topics := Topics(env, clusters, maxLevels);
      var top := if topics != [] then topics else clusters;
      if exists i :: 0 <= i < |groups| && !Uniform(LeafVectors(groups[i])) then Err(RaggedVectors)
      else if |clusters| >= 3 && maxLevels >= 3 && !Uniform(NodeVectors(clusters)) then Err(RaggedVectors)
      else if top != [] && maxLevels >= 4 && !Uniform(NodeVectors(top)) then Err(RaggedVectors)
      else Ok(MakeTree(leaves, clusters, topics, Root(env, top, maxLevels)))
  }

  lemma WholeOnly<T>(items: seq<T>, m: nat)
    requires m <= |items|
    ensures multiset(items[..m]) == multiset(items) <==> m == |items|
  {
    if m == |items| {
      assert items[..m] == items;
    } else {
      assert |multiset(items[..m])| == m && |multiset(items)| == |items|;
    }
  }

  /** Without a linkage all leaves are one cluster, whose mean exists only if all are embedded. */
  lemma UnlinkedIsWhole(env: Env, leaves: seq<Leaf>, minClusters: int, maxLevels: int)
    requires Proper(env) && |Embedded(leaves)| >= 3 && Built(env, leaves, minClusters, maxLevels).Ok?
    requires !env.links(LeafVectors(Embedded(leaves)))
    ensures Embedded(leaves) == leaves
  {
    assert LeafGroups(env, leaves, minClusters)[0] == leaves;
    UniformIsAllEmbedded(leaves);
  }

  /** When a build with clusters succeeds, its clusters hold exactly the first leaves, as many as
      have an embedding; so they partition the leaves if and only if every leaf has one. */
  lemma ClustersPartitionLeaves(env: Env, leaves: seq<Leaf>, minClusters: int, maxLevels: int)
    requires Proper(env) && |Embedded(leaves)| >= 3 && Built(env, leaves, minClusters, maxLevels).Ok?
    ensures var groups := LeafGroups(env, leaves, minClusters);
            && multiset(Flatten(groups)) == multiset(leaves[..|Embedded(leaves)|])
            && (multiset(Flatten(groups)) == multiset(leaves) <==>
                  forall i :: 0 <= i < |leaves| ==> leaves[i].embedding != [])
  {
    EmbeddedAll(leaves);
    ClusteredCovers(env, LeafVectors(Embedded(leaves)), leaves, minClusters);
    WholeOnly(leaves, |Embedded(leaves)|);
    if !env.links(LeafVectors(Embedded(leaves))) { UnlinkedIsWhole(env, leaves, minClusters, maxLevels); }
  }

  lemma {:induction false} SomeEmbedded(ls: seq<Leaf>) returns (i: nat)
    requires Embedded(ls) != []
    ensures i < |ls| && ls[i].embedding != []
  {
    if ls[|ls| - 1].embedding != [] { i := |ls| - 1; } else { i := SomeEmbedded(ls[..|ls| - 1]); }
  }

  lemma UniformIsAllEmbedded(ls: seq<Leaf>)
    requires Uniform(LeafVectors(ls)) && Embedded(ls) != []
    ensures Embedded(ls) == ls
  {
    var k := SomeEmbedded(ls);
    forall i | 0 <= i < |ls| ensures ls[i].embedding != [] {
      assert |LeafVectors(ls)[i]| == |LeafVectors(ls)[k]|;
    }
    EmbeddedAll(ls);
  }

  /** The topics partition the clusters, whatever was embedded. */
  lemma TopicsPartitionClusters(env: Env, clusters: seq<Node>)
    requires Proper(env)
    ensures multiset(Flatten(Clustered(env, NodeVectors(clusters), clusters, 2))) == multiset(clusters)
  {
    ClusteredCovers(env, NodeVectors(clusters), clusters, 2);
    assert clusters[..|clusters|] == clusters;
  }

  lemma {:induction false} SelectSome<T>(items: seq<T>, labels: seq<int>, l: int)
    requires |labels| <= |items| && l in labels
    ensures Select(items, labels, l) != []
  {
    var n := |labels| - 1;
    if labels[n] != l { SelectSome(items, labels[..n], l); }
  }

  lemma ClusteredNonEmpty<T>(env: Env, vectors: seq<Vector>, items: seq<T>, minK: int)
    requires Proper(env) && |vectors| <= |items| && items != []
    ensures forall i :: 0 <= i < |Clustered(env, vectors, items, minK)| ==>
              Clustered(env, vectors, items, minK)[i] != []
  {
    if |vectors| >= 3 && env.links(vectors) {
      var labels := env.labels(vectors, ChosenK(env, vectors, minK));
      AppearingFacts(labels);
      forall i | 0 <= i < |Appearing(labels)| ensures Select(items, labels, Appearing(labels)[i]) != [] {
        assert Appearing(labels)[i] in Appearing(labels);
        SelectSome(items, labels, Appearing(labels)[i]);
      }
    }
  }

  ghost predicate Dimension(vs: seq<Vector>, d: nat) { forall i :: 0 <= i < |vs| ==> |vs[i]| == d }

  lemma GroupsAmong<T>(env: Env, vectors: seq<Vector>, items: seq<T>, minK: int, i: nat)
    requires Proper(env) && |vectors| <= |items| && i < |Clustered(env, vectors, items, minK)|
    ensures forall j :: 0 <= j < |Clustered(env, vectors, items, minK)[i]| ==>
              Clustered(env, vectors, items, minK)[i][j] in items
  {
    var groups := Clustered(env, vectors, items, minK);
    ClusteredCovers(env, vectors, items, minK);
    PrefixWithin(items, |vectors|);
    forall j | 0 <= j < |groups[i]| ensures groups[i][j] in items {
      InFlattened(groups, i, j);
      assert groups[i][j] in multiset(Flatten(groups));
      assert groups[i][j] in multiset(items);
    }
  }

  /** Only the items that have a vector are grouped, if the linkage is used or all have one. */
  lemma GroupsAmongFirst<T>(env: Env, vectors: seq<Vector>, items: seq<T>, minK: int, i: nat)
    requires Proper(env) && |vectors| <= |items| && i < |Clustered(env, vectors, items, minK)|
    requires |vectors| == |items| || (|vectors| >= 3 && env.links(vectors))
    ensures forall j :: 0 <= j < |Clustered(env, vectors, items, minK)[i]| ==>
              Clustered(env, vectors, items, minK)[i][j] in items[..|vectors|]
  {
    var groups := Clustered(env, vectors, items, minK);
    ClusteredCovers(env, vectors, items, minK);
    assert items[..|items|] == items;
    forall j | 0 <= j < |groups[i]| ensures groups[i][j] in items[..|vectors|] {
      InFlattened(groups, i, j);
      assert groups[i][j] in multiset(Flatten(groups));
      assert groups[i][j] in multiset(items[..|vectors|]);
    }
  }

  /** Means of vectors of dimension d have it too. */
  ghost predicate KeepsDimension(env: Env, d: nat) { forall vs :: vs != [] && Dimension(vs, d) ==> |env.mean(vs)| == d }

  /** Only leaves that have an embedding are grouped. */
  lemma GroupsDimension(env: Env, leaves: seq<Leaf>, d: nat, minClusters: int, i: nat)
    requires Proper(env) && Embedded(leaves) <= leaves && Dimension(LeafVectors(Embedded(leaves)), d)
    requires |Embedded(leaves)| == |leaves| || (|Embedded(leaves)| >= 3 && env.links(LeafVectors(Embedded(leaves))))
    requires i < |LeafGroups(env, leaves, minClusters)|
    ensures Dimension(LeafVectors(LeafGroups(env, leaves, minClusters)[i]), d)
  {
    assert leaves[..|Embedded(leaves)|] == Embedded(leaves);
    GroupsAmongFirst(env, LeafVectors(Embedded(leaves)), leaves, minClusters, i);
    AmongDimension(Embedded(leaves), LeafGroups(env, leaves, minClusters)[i], d);
  }

  /** When the leaves that have an embedding come first, share one dimension, and means keep it, the
      build succeeds - if leaves without one follow, provided the linkage can be computed. */
  lemma BuildSucceeds(env: Env, leaves: seq<Leaf>, d: nat, minClusters: int, maxLevels: int)
    requires Proper(env) && KeepsDimension(env, d)
    requires Embedded(leaves) <= leaves && Dimension(LeafVectors(Embedded(leaves)), d)
    requires |Embedded(leaves)| == |leaves| || env.links(LeafVectors(Embedded(leaves)))
    ensures Built(env, leaves, minClusters, maxLevels).Ok?
  {
    if |Embedded(leaves)| >= 3 {
      var groups := LeafGroups(env, leaves, minClusters);
      var clusters := ClusterNodes(env, groups);
      ClusteredNonEmpty(env, LeafVectors(Embedded(leaves)), leaves, minClusters);
      forall i | 0 <= i < |groups| ensures Dimension(LeafVectors(groups[i]), d) && |clusters[i].embedding| == d {
        GroupsDimension(env, leaves, d, minClusters, i);
        assert LeafVectors(groups[i]) != [];
      }
      var topics := Topics(env, clusters, maxLevels);
      if topics != [] { TopicsDimension(env, clusters, maxLevels, d); }
    }
  }

  /** When every leaf has an embedding of one dimension, and means keep it, the build succeeds. */
  lemma EmbeddedBuildSucceeds(env: Env, leaves: seq<Leaf>, d: nat, minClusters: int, maxLevels: int)
    requires Proper(env) && d > 0 && Dimension(LeafVectors(leaves), d) && KeepsDimension(env, d)
    ensures Built(env, leaves, minClusters, maxLevels).Ok?
  {
    forall i | 0 <= i < |leaves| ensures leaves[i].embedding != [] { assert |LeafVectors(leaves)[i]| == d; }
    EmbeddedAll(leaves);
    BuildSucceeds(env, leaves, d, minClusters, maxLevels);
  }

  lemma AmongDimension(all: seq<Leaf>, group: seq<Leaf>, d: nat)
    requires Dimension(LeafVectors(all), d) && forall j :: 0 <= j < |group| ==> group[j] in all
    ensures Dimension(LeafVectors(group), d)
  {
    forall j | 0 <= j < |group| ensures |group[j].embedding| == d {
      var k :| 0 <= k < |all| && all[k] == group[j];
      assert |LeafVectors(all)[k]| == d;
    }
  }

  lemma TopicsDimension(env: Env, clusters: seq<Node>, maxLevels: int, d: nat)
    requires Proper(env) && Dimension(NodeVectors(clusters), d) && KeepsDimension(env, d)
    ensures Dimension(NodeVectors(Topics(env, clusters, maxLevels)), d)
  {
    if |clusters| >= 3 && maxLevels >= 3 {
      var groups := Clustered(env, NodeVectors(clusters), clusters, 2);
      ClusteredNonEmpty(env, NodeVectors(clusters), clusters, 2);
      forall i | 0 <= i < |groups| ensures |env.mean(NodeVectors(groups[i]))| == d {
        GroupsAmong(env, NodeVectors(clusters), clusters, 2, i);
        forall j | 0 <= j < |groups[i]| ensures |NodeVectors(groups[i])[j]| == d {
          var k :| 0 <= k < |clusters| && clusters[k] == groups[i][j];
          assert |NodeVectors(clusters)[k]| == d;
        }
        assert NodeVectors(groups[i]) != [];
      }
    }
  }

  // ---------- attaching new leaves ----------

  /** The nearest cluster and its score: the first maximum above -1 among those with an embedding. */
  function Nearest(env: Env, clusters: seq<Node>, v: Vector): (Option<nat>, real) {
    if clusters == [] then (None, -1.0)
    else
      var last := clusters[|clusters| - 1];
      var (best, score) := Nearest(env, clusters[..|clusters| - 1], v);
      if last.embedding != [] && env.similarity(v, last.embedding) > score
      then (Some(|clusters| - 1), env.similarity(v, last.embedding)) else (best, score)
  }

  lemma {:induction false} NearestIsMaximal(env: Env, clusters: seq<Node>, v: Vector)
    ensures var (best, score) := Nearest(env, clusters, v);
            && score >= -1.0
            && (forall j :: 0 <= j < |clusters| && clusters[j].embedding != [] ==>
                  env.similarity(v, clusters[j].embedding) <= score)
            && match best
               case None => score == -1.0
               case Some(i) =>
                 && i < |clusters| && clusters[i].embedding != []
                 && env.similarity(v, clusters[i].embedding) == score > -1.0
                 && (forall j :: 0 <= j < i && clusters[j].embedding != [] ==>
                       env.similarity(v, clusters[j].embedding) < score)
  {
    if clusters != [] { NearestIsMaximal(env, clusters[..|clusters| - 1], v); }
  }

  /** Where a new leaf goes; nowhere without an embedding or a cluster scoring above -1. */
  function Home(env: Env, clusters: seq<Node>, leaf: Leaf): Option<nat> {
    if leaf.embedding == [] then None else Nearest(env, clusters, leaf.embedding).0
  }

  /** Exactly where a new leaf goes: to the first of the clusters most similar to it, among those that have a vector
      and are more similar than -1; a leaf without a vector goes nowhere. */
  lemma HomeExactly(env: Env, clusters: seq<Node>, leaf: Leaf, i: nat)
    ensures Home(env, clusters, leaf) == Some(i) <==>
              && leaf.embedding != [] && i < |clusters| && clusters[i].embedding != []
              && env.similarity(leaf.embedding, clusters[i].embedding) > -1.0
              && (forall j :: 0 <= j < |clusters| && clusters[j].embedding != [] ==>
                    && env.similarity(leaf.embedding, clusters[j].embedding)
                       <= env.similarity(leaf.embedding, clusters[i].embedding)
                    && (j < i ==> env.similarity(leaf.embedding, clusters[j].embedding)
                                  < env.similarity(leaf.embedding, clusters[i].embedding)))
  {
    NearestIsMaximal(env, clusters, leaf.embedding);
  }

  function Attach(c: Node, leaf: Leaf): Node {
    c.(children := c.children + [LeafId(leaf.id)], papers := c.papers + {leaf.paper})
  }

  function AttachOne(env: Env, clusters: seq<Node>, leaf: Leaf): seq<Node> {
    match Home(env, clusters, leaf)
    case Some(i) => if i < |clusters| then clusters[i := Attach(clusters[i], leaf)] else clusters
    case None => clusters
  }

  function AttachAll(env: Env, clusters: seq<Node>, leaves: seq<Leaf>): seq<Node> {
    if leaves == [] then clusters
    else AttachOne(env, AttachAll(env, clusters, leaves[..|leaves| - 1]), leaves[|leaves| - 1])
  }

  function Updated(env: Env, t: Tree, more: seq<Leaf>): Tree {
    MakeTree(t.leaves + more, AttachAll(env, t.clusters, more), t.topics, t.root)
  }

  /** The new leaves whose home is cluster i, in order of arrival. */
  function Chosen(env: Env, clusters: seq<Node>, leaves: seq<Leaf>, i: nat): seq<Leaf> {
    if leaves == [] then []
    else
      var last := leaves[|leaves| - 1];
      Chosen(env, clusters, leaves[..|leaves| - 1], i) + if Home(env, clusters, last) == Some(i) then [last] else []
  }

  function Grown(env: Env, clusters: seq<Node>, leaves: seq<Leaf>, i: nat): Node
    requires i < |clusters|
  {
    var chosen := Chosen(env, clusters, leaves, i);
    clusters[i].(children := clusters[i].children + LeafIds(chosen), papers := clusters[i].papers + LeafPapers(chosen))
  }

  ghost predicate SameVectors(a: seq<Node>, b: seq<Node>) {
    |a| == |b| && forall i :: 0 <= i < |a| ==> a[i].embedding == b[i].embedding
  }

  lemma {:induction false} NearestBySight(env: Env, a: seq<Node>, b: seq<Node>, v: Vector)
    requires SameVectors(a, b)
    ensures Nearest(env, a, v) == Nearest(env, b, v)
  {
    if a != [] { NearestBySight(env, a[..|a| - 1], b[..|b| - 1], v); }
  }

  lemma GrownOne(c: Node, chosen: seq<Leaf>, leaf: Leaf)
    ensures Attach(c.(children := c.children + LeafIds(chosen), papers := c.papers + LeafPapers(chosen)), leaf)
            == c.(children := c.children + LeafIds(chosen + [leaf]), papers := c.papers + LeafPapers(chosen + [leaf]))
  {
    assert LeafIds(chosen + [leaf]) == LeafIds(chosen) + [LeafId(leaf.id)];
    assert c.children + LeafIds(chosen) + [LeafId(leaf.id)] == c.children + (LeafIds(chosen) + [LeafId(leaf.id)]);
    forall p ensures p in LeafPapers(chosen + [leaf]) <==> p in LeafPapers(chosen) + {leaf.paper} {
      if p in LeafPapers(chosen) {
        var i :| 0 <= i < |chosen| && chosen[i].paper == p;
        assert (chosen + [leaf])[i].paper == p;
      }
      assert (chosen + [leaf])[|chosen|] == leaf;
    }
    assert LeafPapers(chosen + [leaf]) == LeafPapers(chosen) + {leaf.paper};
  }

  ghost predicate IsGrown(env: Env, clusters: seq<Node>, leaves: seq<Leaf>, now: seq<Node>) {
    |now| == |clusters| && forall i :: 0 <= i < |clusters| ==> now[i] == Grown(env, clusters, leaves, i)
  }

  lemma ChosenOneMore(env: Env, clusters: seq<Node>, leaves: seq<Leaf>, last: Leaf, i: nat)
    requires i < |clusters|
    ensures Grown(env, clusters, leaves + [last], i) ==
            if Home(env, clusters, last) == Some(i) then Attach(Grown(env, clusters, leaves, i), last)
            else Grown(env, clusters, leaves, i)
  {
    assert (leaves + [last])[..|leaves|] == leaves;
    var chosen := Chosen(env, clusters, leaves, i);
    assert chosen + [] == chosen;
    GrownOne(clusters[i], chosen, last);
  }

  lemma HomeStays(env: Env, clusters: seq<Node>, leaves: seq<Leaf>, now: seq<Node>, last: Leaf)
    requires IsGrown(env, clusters, leaves, now)
    ensures Home(env, now, last) == Home(env, clusters, last)
    ensures Home(env, now, last).Some? ==> Home(env, now, last).value < |now|
  {
    NearestBySight(env, now, clusters, last.embedding);
    NearestIsMaximal(env, clusters, last.embedding);
  }

  lemma GrownStep(env: Env, clusters: seq<Node>, leaves: seq<Leaf>, now: seq<Node>, last: Leaf)
    requires IsGrown(env, clusters, leaves, now)
    ensures IsGrown(env, clusters, leaves + [last], AttachOne(env, now, last))
  {
    HomeStays(env, clusters, leaves, now, last);
    forall i | 0 <= i < |clusters|
      ensures AttachOne(env, now, last)[i] == Grown(env, clusters, leaves + [last], i)
    {
      ChosenOneMore(env, clusters, leaves, last, i);
    }
  }

  /** However the new leaves arrive, each cluster ends as it was built plus the leaves it is the
      home of: attaching never changes where later leaves go. */
  lemma {:induction false} AttachedIsGrown(env: Env, clusters: seq<Node>, leaves: seq<Leaf>)
    ensures IsGrown(env, clusters, leaves, AttachAll(env, clusters, leaves))
  {
    if leaves == [] {
      forall i | 0 <= i < |clusters| ensures clusters[i] == Grown(env, clusters, leaves, i) {
        assert clusters[i].children + LeafIds([]) == clusters[i].children;
      }
    } else {
      var front, last := leaves[..|leaves| - 1], leaves[|leaves| - 1];
      AttachedIsGrown(env, clusters, front);
      GrownStep(env, clusters, front, AttachAll(env, clusters, front), last);
      assert leaves == front + [last];
    }
  }

  // ---------- runs of updates ----------

  function Updates(env: Env, t: Tree, batches: seq<seq<Leaf>>): Tree {
    if batches == [] then t else Updated(env, Updates(env, t, batches[..|batches| - 1]), batches[|batches| - 1])
  }

  lemma {:induction false} AttachMore(env: Env, clusters: seq<Node>, a: seq<Leaf>, b: seq<Leaf>)
    ensures AttachAll(env, clusters, a + b) == AttachAll(env, AttachAll(env, clusters, a), b)
  {
    if b == [] {
      assert a + b == a;
    } else {
      var front, last := b[..|b| - 1], b[|b| - 1];
      AttachMore(env, clusters, a, front);
      assert (a + b)[..|a + b| - 1] == a + front;
    }
  }

  ghost predicate Synced(t: Tree) { t == MakeTree(t.leaves, t.clusters, t.topics, t.root) }

  /** Any run of updates is one update with all the new leaves. */
  lemma {:induction false} RunIsOneUpdate(env: Env, t: Tree, batches: seq<seq<Leaf>>)
    requires Synced(t)
    ensures Updates(env, t, batches) == Updated(env, t, Flatten(batches))
  {
    if batches == [] {
      assert t.leaves + [] == t.leaves;
    } else {
      var front, last := batches[..|batches| - 1], batches[|batches| - 1];
      var arrivals := Flatten(front);
      RunIsOneUpdate(env, t, front);
      AttachMore(env, t.clusters, arrivals, last);
      assert t.leaves + arrivals + last == t.leaves + (arrivals + last);
    }
  }

  /** The leaf groups a build makes; none when too few leaves are embedded. */
  function BuiltGroups(env: Env, leaves: seq<Leaf>, minClusters: int): seq<seq<Leaf>>
    requires Proper(env)
  {
    if |Embedded(leaves)| < 3 then [] else LeafGroups(env, leaves, minClusters)
  }

  function Attached(env: Env, clusters: seq<Node>, leaves: seq<Leaf>): seq<Leaf> {
    if leaves == [] then []
    else
      var last := leaves[|leaves| - 1];
      Attached(env, clusters, leaves[..|leaves| - 1]) + if Home(env, clusters, last).Some? then [last] else []
  }

  /** The leaves of each cluster after a run: its built group, then the leaves it is the home of. */
  function Members(env: Env, clusters: seq<Node>, groups: seq<seq<Leaf>>, arrivals: seq<Leaf>): seq<seq<Leaf>> {
    seq(|groups|, i requires 0 <= i < |groups| => groups[i] + Chosen(env, clusters, arrivals, i))
  }

  lemma MembersStep(env: Env, clusters: seq<Node>, groups: seq<seq<Leaf>>, arrivals: seq<Leaf>, last: Leaf)
    requires |groups| == |clusters|
    ensures var before, home := Members(env, clusters, groups, arrivals), Home(env, clusters, last);
            && (home.Some? ==> home.value < |groups|)
            && Members(env, clusters, groups, arrivals + [last]) ==
               if home.Some? then before[home.value := before[home.value] + [last]] else before
  {
    NearestIsMaximal(env, clusters, last.embedding);
    assert (arrivals + [last])[..|arrivals|] == arrivals;
    var before, home := Members(env, clusters, groups, arrivals), Home(env, clusters, last);
    var after := if home.Some? then before[home.value := before[home.value] + [last]] else before;
    forall i | 0 <= i < |groups| ensures Members(env, clusters, groups, arrivals + [last])[i] == after[i] {
      var chosen := Chosen(env, clusters, arrivals, i);
      assert Chosen(env, clusters, arrivals + [last], i) == chosen + if home == Some(i) then [last] else [];
      assert groups[i] + chosen + [last] == groups[i] + (chosen + [last]);
      assert chosen + [] == chosen;
    }
  }

  lemma MembersGrow(env: Env, clusters: seq<Node>, groups: seq<seq<Leaf>>, arrivals: seq<Leaf>, last: Leaf)
    requires |groups| == |clusters|
    ensures multiset(Flatten(Members(env, clusters, groups, arrivals + [last])))
            == multiset(Flatten(Members(env, clusters, groups, arrivals)))
               + if Home(env, clusters, last).Some? then multiset{last} else multiset{}
  {
    var before, home := Members(env, clusters, groups, arrivals), Home(env, clusters, last);
    MembersStep(env, clusters, groups, arrivals, last);
    if home.Some? { FlattenUpdate(before, home.value, last); }
  }

  lemma NoMembersYet(env: Env, clusters: seq<Node>, groups: seq<seq<Leaf>>)
    ensures Members(env, clusters, groups, []) == groups
  {
    forall i | 0 <= i < |groups| ensures Members(env, clusters, groups, [])[i] == groups[i] {
      assert groups[i] + [] == groups[i];
    }
  }

  ghost predicate Conserved(env: Env, clusters: seq<Node>, groups: seq<seq<Leaf>>, arrivals: seq<Leaf>) {
    multiset(Flatten(Members(env, clusters, groups, arrivals)))
    == multiset(Flatten(groups)) + multiset(Attached(env, clusters, arrivals))
  }

  lemma ConservedStep(env: Env, clusters: seq<Node>, groups: seq<seq<Leaf>>, arrivals: seq<Leaf>, last: Leaf)
    requires |groups| == |clusters| && Conserved(env, clusters, groups, arrivals)
    ensures Conserved(env, clusters, groups, arrivals + [last])
  {
    MembersGrow(env, clusters, groups, arrivals, last);
  }

  /** Nothing is lost or duplicated: the clusters hold the leaves they were built from and each new
      leaf that has a home, once. */
  lemma {:induction false} MembersConserve(env: Env, clusters: seq<Node>, groups: seq<seq<Leaf>>, arrivals: seq<Leaf>)
    requires |groups| == |clusters|
    ensures Conserved(env, clusters, groups, arrivals)
  {
    if arrivals == [] {
      NoMembersYet(env, clusters, groups);
    } else {
      var front, last := arrivals[..|arrivals| - 1], arrivals[|arrivals| - 1];
      MembersConserve(env, clusters, groups, front);
      ConservedStep(env, clusters, groups, front, last);
      assert front + [last] == arrivals;
    }
  }

  lemma AppendPapers(a: seq<Leaf>, b: seq<Leaf>)
    ensures LeafPapers(a + b) == LeafPapers(a) + LeafPapers(b)
  {
    forall p ensures p in LeafPapers(a + b) <==> p in LeafPapers(a) + LeafPapers(b) {
      if p in LeafPapers(a) { var i :| 0 <= i < |a| && a[i].paper == p; assert (a + b)[i].paper == p; }
      if p in LeafPapers(b) { var i :| 0 <= i < |b| && b[i].paper == p; assert (a + b)[|a| + i].paper == p; }
    }
  }

  /** What a tree is after any run of updates, read off the build and the new leaves. */
  ghost predicate TreeIs(env: Env, t: Tree, t0: Tree, groups: seq<seq<Leaf>>, arrivals: seq<Leaf>) {
    && t == MakeTree(t0.leaves + arrivals, t.clusters, t0.topics, t0.root)
    && |t.clusters| == |t0.clusters| == |groups|
    && Levels(t) == Levels(t0)
    && forall i :: 0 <= i < |groups| ==>
         && t.clusters[i].children == LeafIds(Members(env, t0.clusters, groups, arrivals)[i])
         && t.clusters[i].papers == LeafPapers(Members(env, t0.clusters, groups, arrivals)[i])
  }

  lemma GrownMembers(env: Env, clusters: seq<Node>, groups: seq<seq<Leaf>>, arrivals: seq<Leaf>, i: nat)
    requires clusters == ClusterNodes(env, groups) && i < |groups|
    ensures Grown(env, clusters, arrivals, i).children == LeafIds(Members(env, clusters, groups, arrivals)[i])
    ensures Grown(env, clusters, arrivals, i).papers == LeafPapers(Members(env, clusters, groups, arrivals)[i])
  {
    var chosen := Chosen(env, clusters, arrivals, i);
    assert LeafIds(groups[i] + chosen) == LeafIds(groups[i]) + LeafIds(chosen);
    AppendPapers(groups[i], chosen);
  }

  lemma UpdatedTreeIs(env: Env, t0: Tree, groups: seq<seq<Leaf>>, arrivals: seq<Leaf>)
    requires Synced(t0) && t0.clusters == ClusterNodes(env, groups)
    ensures TreeIs(env, Updated(env, t0, arrivals), t0, groups, arrivals)
  {
    AttachedIsGrown(env, t0.clusters, arrivals);
    var t := Updated(env, t0, arrivals);
    forall i | 0 <= i < |groups|
      ensures t.clusters[i].children == LeafIds(Members(env, t0.clusters, groups, arrivals)[i])
      ensures t.clusters[i].papers == LeafPapers(Members(env, t0.clusters, groups, arrivals)[i])
    {
      assert t.clusters[i] == Grown(env, t0.clusters, arrivals, i);
      GrownMembers(env, t0.clusters, groups, arrivals, i);
    }
  }

  /** After any run of updates on a built tree, whatever the batches: every cluster's children and
      papers are those of its members, the members are the built leaves and the homed new ones,
      and topics, root and number of levels are as built - so a tree built from too few embedded
      leaves never gets a cluster. */
  lemma TreeAfterRun(env: Env, leaves: seq<Leaf>, minClusters: int, maxLevels: int, batches: seq<seq<Leaf>>)
    requires Proper(env) && Built(env, leaves, minClusters, maxLevels).Ok?
    ensures var t0, groups := Built(env, leaves, minClusters, maxLevels).value, BuiltGroups(env, leaves, minClusters);
            TreeIs(env, Updates(env, t0, batches), t0, groups, Flatten(batches))
            && Conserved(env, t0.clusters, groups, Flatten(batches))
  {
    var t0, groups := Built(env, leaves, minClusters, maxLevels).value, BuiltGroups(env, leaves, minClusters);
    RunIsOneUpdate(env, t0, batches);
    UpdatedTreeIs(env, t0, groups, Flatten(batches));
    MembersConserve(env, t0.clusters, groups, Flatten(batches));
  }

  // ---------- papers, read through ids ----------

  /** The papers a list of child ids stands for, looked up among leaves, or among nodes. */
  ghost function LeafPapersOf(leaves: seq<Leaf>, ids: seq<NodeId>): set<string> {
    set k | 0 <= k < |leaves| && LeafId(leaves[k].id) in ids :: leaves[k].paper
  }

  ghost function PapersOf(nodes: seq<Node>, ids: seq<NodeId>): set<string> {
    set k, p | 0 <= k < |nodes| && nodes[k].id in ids && p in nodes[k].papers :: p
  }

  ghost predicate DistinctLeafIds(leaves: seq<Leaf>) {
    forall i, j :: 0 <= i < j < |leaves| ==> leaves[i].id != leaves[j].id
  }

  ghost predicate Among<T>(group: seq<T>, all: seq<T>) { forall j :: 0 <= j < |group| ==> group[j] in all }

  lemma LeavesLookedUp(all: seq<Leaf>, group: seq<Leaf>)
    requires DistinctLeafIds(all) && Among(group, all)
    ensures LeafPapersOf(all, LeafIds(group)) == LeafPapers(group)
  {
    forall p ensures p in LeafPapersOf(all, LeafIds(group)) <==> p in LeafPapers(group) {
      if p in LeafPapersOf(all, LeafIds(group)) {
        var k :| 0 <= k < |all| && LeafId(all[k].id) in LeafIds(group) && all[k].paper == p;
        var j :| 0 <= j < |group| && LeafIds(group)[j] == LeafId(all[k].id);
        var i :| 0 <= i < |all| && all[i] == group[j];
        assert i == k;
      }
      if p in LeafPapers(group) {
        var j :| 0 <= j < |group| && group[j].paper == p;
        var k :| 0 <= k < |all| && all[k] == group[j];
        assert LeafIds(group)[j] in LeafIds(group);
      }
    }
  }

  lemma NodesLookedUp(all: seq<Node>, group: seq<Node>)
    requires (forall i, j :: 0 <= i < j < |all| ==> all[i].id != all[j].id) && Among(group, all)
    ensures PapersOf(all, NodeIds(group)) == NodePapers(group)
  {
    forall p ensures p in PapersOf(all, NodeIds(group)) <==> p in NodePapers(group) {
      if p in PapersOf(all, NodeIds(group)) {
        var k :| 0 <= k < |all| && all[k].id in NodeIds(group) && p in all[k].papers;
        var j :| 0 <= j < |group| && NodeIds(group)[j] == all[k].id;
        var i :| 0 <= i < |all| && all[i] == group[j];
        assert i == k;
      }
      if p in NodePapers(group) {
        var j :| 0 <= j < |group| && p in group[j].papers;
        var k :| 0 <= k < |all| && all[k] == group[j];
        assert NodeIds(group)[j] in NodeIds(group);
      }
    }
  }

  lemma {:induction false} InFlattened<T>(gs: seq<seq<T>>, i: nat, j: nat)
    requires i < |gs| && j < |gs[i]|
    ensures gs[i][j] in Flatten(gs)
  {
    if i < |gs| - 1 { InFlattened(gs[..|gs| - 1], i, j); }
  }

  lemma {:induction false} AttachedAreNew(env: Env, clusters: seq<Node>, arrivals: seq<Leaf>, x: Leaf)
    requires x in Attached(env, clusters, arrivals)
    ensures x in arrivals
  {
    var front := arrivals[..|arrivals| - 1];
    if x in Attached(env, clusters, front) { AttachedAreNew(env, clusters, front, x); }
  }

  /** A part of a partition of some of `a` and some of `b` lies in a + b. */
  lemma PartAmong<T>(parts: seq<seq<T>>, i: nat, a: seq<T>, b: seq<T>)
    requires i < |parts| && forall x :: x in multiset(Flatten(parts)) ==> x in a || x in b
    ensures Among(parts[i], a + b)
  {
    forall j | 0 <= j < |parts[i]| ensures parts[i][j] in a + b {
      InFlattened(parts, i, j);
      assert parts[i][j] in multiset(Flatten(parts));
    }
  }

  lemma MembersAmong(env: Env, clusters: seq<Node>, groups: seq<seq<Leaf>>, leaves: seq<Leaf>, arrivals: seq<Leaf>,
                     i: nat)
    requires Conserved(env, clusters, groups, arrivals) && i < |groups|
    requires multiset(Flatten(groups)) <= multiset(leaves)
    ensures Among(Members(env, clusters, groups, arrivals)[i], leaves + arrivals)
  {
    var members := Members(env, clusters, groups, arrivals);
    forall x | x in multiset(Flatten(members)) ensures x in leaves || x in arrivals {
      if x in multiset(Flatten(groups)) {
        assert x in multiset(leaves);
      } else {
        assert x in multiset(Attached(env, clusters, arrivals));
        AttachedAreNew(env, clusters, arrivals, x);
      }
    }
    PartAmong(members, i, leaves, arrivals);
  }

  /** After any run, if the leaf ids are distinct, each cluster's papers are exactly the papers of
      the leaves its children name. */
  lemma ClusterPapersFollowChildren(env: Env, leaves: seq<Leaf>, minClusters: int, maxLevels: int,
                                    batches: seq<seq<Leaf>>, i: nat)
    requires Proper(env) && Built(env, leaves, minClusters, maxLevels).Ok?
    requires i < |BuiltGroups(env, leaves, minClusters)|
    requires DistinctLeafIds(leaves + Flatten(batches))
    ensures var t := Updates(env, Built(env, leaves, minClusters, maxLevels).value, batches);
            && i < |t.clusters| && t.leaves == leaves + Flatten(batches)
            && t.clusters[i].papers == LeafPapersOf(t.leaves, t.clusters[i].children)
  {
    var t0, groups := Built(env, leaves, minClusters, maxLevels).value, BuiltGroups(env, leaves, minClusters);
    TreeAfterRun(env, leaves, minClusters, maxLevels, batches);
    GroupsAmongLeaves(env, leaves, minClusters, maxLevels);
    MembersAmong(env, t0.clusters, groups, leaves, Flatten(batches), i);
    LeavesLookedUp(leaves + Flatten(batches), Members(env, t0.clusters, groups, Flatten(batches))[i]);
  }

  lemma GroupsAmongLeaves(env: Env, leaves: seq<Leaf>, minClusters: int, maxLevels: int)
    requires Proper(env) && Built(env, leaves, minClusters, maxLevels).Ok?
    ensures multiset(Flatten(BuiltGroups(env, leaves, minClusters))) <= multiset(leaves)
  {
    if |Embedded(leaves)| >= 3 {
      ClustersPartitionLeaves(env, leaves, minClusters, maxLevels);
      PrefixWithin(leaves, |Embedded(leaves)|);
    }
  }

  lemma PrefixWithin<T>(items: seq<T>, m: nat)
    requires m <= |items|
    ensures multiset(items[..m]) <= multiset(items)
  {
    assert items == items[..m] + items[m..];
  }

  lemma TopicPapers(env: Env, clusters: seq<Node>, maxLevels: int, i: nat)
    requires Proper(env) && i < |Topics(env, clusters, maxLevels)|
    requires forall j, k :: 0 <= j < k < |clusters| ==> clusters[j].id != clusters[k].id
    ensures var topic := Topics(env, clusters, maxLevels)[i];
            topic.papers == PapersOf(clusters, topic.children)
  {
    var groups := Clustered(env, NodeVectors(clusters), clusters, 2);
    TopicsPartitionClusters(env, clusters);
    forall x | x in multiset(Flatten(groups)) ensures x in clusters || x in [] { assert x in multiset(clusters); }
    PartAmong(groups, i, clusters, []);
    assert clusters + [] == clusters;
    NodesLookedUp(clusters, groups[i]);
  }

  /** As built, every topic lists exactly the papers of its clusters, and the root those of the
      topics, or of the clusters when there are no topics. */
  lemma UpperPapersBuilt(env: Env, leaves: seq<Leaf>, minClusters: int, maxLevels: int)
    requires Proper(env) && Built(env, leaves, minClusters, maxLevels).Ok?
    ensures var t := Built(env, leaves, minClusters, maxLevels).value;
            && (forall i :: 0 <= i < |t.topics| ==> t.topics[i].papers == PapersOf(t.clusters, t.topics[i].children))
            && (t.root.Some? ==>
                  t.root.value.papers
                  == PapersOf(if t.topics != [] then t.topics else t.clusters, t.root.value.children))
  {
    var t := Built(env, leaves, minClusters, maxLevels).value;
    forall i | 0 <= i < |t.topics| ensures t.topics[i].papers == PapersOf(t.clusters, t.topics[i].children) {
      TopicPapers(env, t.clusters, maxLevels, i);
    }
    if t.root.Some? {
      var top := if t.topics != [] then t.topics else t.clusters;
      NodesLookedUp(top, top);
    }
  }

  /** Clusters that gain papers: what a node above them still lists. */
  lemma PapersGain(a: seq<Node>, b: seq<Node>, extra: seq<set<string>>, n: Node)
    requires |a| == |b| == |extra| && n.papers == PapersOf(a, n.children)
    requires forall i :: 0 <= i < |a| ==> b[i].id == a[i].id && b[i].papers == a[i].papers + extra[i]
    ensures n.papers <= PapersOf(b, n.children)
    ensures n.papers == PapersOf(b, n.children) <==>
            forall i :: 0 <= i < |a| && a[i].id in n.children ==> extra[i] <= n.papers
  {
    forall p | p in n.papers ensures p in PapersOf(b, n.children) {
      var k :| 0 <= k < |a| && a[k].id in n.children && p in a[k].papers;
      assert b[k].id in n.children && p in b[k].papers;
    }
    if n.papers == PapersOf(b, n.children) {
      forall i | 0 <= i < |a| && a[i].id in n.children ensures extra[i] <= n.papers {
        assert b[i].id in n.children;
        forall p | p in extra[i] ensures p in n.papers { assert p in b[i].papers; }
      }
    }
    if forall i :: 0 <= i < |a| && a[i].id in n.children ==> extra[i] <= n.papers {
      forall p | p in PapersOf(b, n.children) ensures p in n.papers {
        var k :| 0 <= k < |b| && b[k].id in n.children && p in b[k].papers;
        assert a[k].id in n.children;
      }
    }
  }

  /** Updates add to the clusters only, so a topic (or a root directly over the clusters) lists a
      subset of its children's papers - and all of them if and only if every new leaf attached
      under it brought a paper it already had. */
  lemma UpperPapersGoStale(env: Env, clusters: seq<Node>, arrivals: seq<Leaf>, n: Node)
    requires n.papers == PapersOf(clusters, n.children)
    ensures var now := AttachAll(env, clusters, arrivals);
            && n.papers <= PapersOf(now, n.children)
            && (n.papers == PapersOf(now, n.children) <==>
                forall i :: 0 <= i < |clusters| && clusters[i].id in n.children ==>
                  LeafPapers(Chosen(env, clusters, arrivals, i)) <= n.papers)
  {
    AttachedIsGrown(env, clusters, arrivals);
    var extra := seq(|clusters|, i requires 0 <= i < |clusters| => LeafPapers(Chosen(env, clusters, arrivals, i)));
    var now := AttachAll(env, clusters, arrivals);
    forall i | 0 <= i < |clusters|
      ensures now[i].id == clusters[i].id && now[i].papers == clusters[i].papers + extra[i]
    {
      assert now[i] == Grown(env, clusters, arrivals, i);
    }
    PapersGain(clusters, now, extra, n);
  }

  /** No new leaf attached under node n brought a paper n does not list. */
  ghost predicate NothingNew(env: Env, clusters: seq<Node>, arrivals: seq<Leaf>, n: Node) {
    forall i :: 0 <= i < |clusters| && clusters[i].id in n.children ==>
      LeafPapers(Chosen(env, clusters, arrivals, i)) <= n.papers
  }

  /** After any run of updates on a built tree: each topic lists a subset of the papers of its
      clusters as they now are, and the whole set if and only if no leaf attached under it brought a
      paper it did not list. */
  lemma TopicPapersAfterRun(env: Env, leaves: seq<Leaf>, minClusters: int, maxLevels: int, batches: seq<seq<Leaf>>,
                            i: nat)
    requires Proper(env) && Built(env, leaves, minClusters, maxLevels).Ok?
    requires i < |Updates(env, Built(env, leaves, minClusters, maxLevels).value, batches).topics|
    ensures var t0 := Built(env, leaves, minClusters, maxLevels).value;
            var t := Updates(env, t0, batches);
            var topic := t.topics[i];
            && topic.papers <= PapersOf(t.clusters, topic.children)
            && (topic.papers == PapersOf(t.clusters, topic.children) <==>
                  NothingNew(env, t0.clusters, Flatten(batches), topic))
  {
    var t0 := Built(env, leaves, minClusters, maxLevels).value;
    RunIsOneUpdate(env, t0, batches);
    UpperPapersBuilt(env, leaves, minClusters, maxLevels);
    UpperPapersGoStale(env, t0.clusters, Flatten(batches), t0.topics[i]);
  }

  lemma {:induction false} FlattenedComesFrom<T>(gs: seq<seq<T>>, x: T) returns (i: nat, j: nat)
    requires x in Flatten(gs)
    ensures i < |gs| && j < |gs[i]| && gs[i][j] == x
  {
    var last := gs[|gs| - 1];
    if x in last {
      i := |gs| - 1;
      j :| 0 <= j < |last| && last[j] == x;
    } else {
      i, j := FlattenedComesFrom(gs[..|gs| - 1], x);
    }
  }

  /** The topics list, together, what the clusters list. */
  lemma TopicsListAll(env: Env, clusters: seq<Node>, maxLevels: int)
    requires Proper(env) && Topics(env, clusters, maxLevels) != []
    ensures NodePapers(Topics(env, clusters, maxLevels)) == NodePapers(clusters)
  {
    var groups: seq<seq<Node>> := Clustered(env, NodeVectors(clusters), clusters, 2);
    var topics := Topics(env, clusters, maxLevels);
    TopicsPartitionClusters(env, clusters);
    forall p | p in NodePapers(topics) ensures p in NodePapers(clusters) {
      var i :| 0 <= i < |topics| && p in topics[i].papers;
      var j :| 0 <= j < |groups[i]| && p in groups[i][j].papers;
      InFlattened(groups, i, j);
      assert groups[i][j] in multiset(Flatten(groups));
      assert groups[i][j] in multiset(clusters);
    }
    forall p | p in NodePapers(clusters) ensures p in NodePapers(topics) {
      var k :| 0 <= k < |clusters| && p in clusters[k].papers;
      assert clusters[k] in multiset(Flatten(groups));
      var i, j := FlattenedComesFrom(groups, clusters[k]);
      assert p in topics[i].papers;
    }
  }

  /** The root as built lists every cluster's papers. */
  lemma RootListsAll(env: Env, leaves: seq<Leaf>, minClusters: int, maxLevels: int)
    requires Proper(env) && Built(env, leaves, minClusters, maxLevels).Ok?
    requires Built(env, leaves, minClusters, maxLevels).value.root.Some?
    ensures var t := Built(env, leaves, minClusters, maxLevels).value; t.root.value.papers == NodePapers(t.clusters)
  {
    var t := Built(env, leaves, minClusters, maxLevels).value;
    if t.topics != [] { TopicsListAll(env, t.clusters, maxLevels); }
  }

  /** Looking up every cluster is listing them all. */
  lemma AllLookedUp(nodes: seq<Node>, n: Node)
    requires forall i :: 0 <= i < |nodes| ==> nodes[i].id in n.children
    ensures PapersOf(nodes, n.children) == NodePapers(nodes)
  {
    forall p ensures p in PapersOf(nodes, n.children) <==> p in NodePapers(nodes) {
      if p in NodePapers(nodes) { var i :| 0 <= i < |nodes| && p in nodes[i].papers; assert nodes[i].id in n.children; }
    }
  }

  /** No new leaf attached anywhere brought a paper beyond those listed. */
  ghost predicate AllListed(env: Env, clusters: seq<Node>, arrivals: seq<Leaf>, listed: set<string>) {
    forall i :: 0 <= i < |clusters| ==> LeafPapers(Chosen(env, clusters, arrivals, i)) <= listed
  }

  /** After any run of updates, with topics or without: the root lists a subset of all the clusters'
      papers, and all of them if and only if no attached leaf brought a paper it did not list. */
  lemma RootPapersAfterRun(env: Env, leaves: seq<Leaf>, minClusters: int, maxLevels: int, batches: seq<seq<Leaf>>)
    requires Proper(env) && Built(env, leaves, minClusters, maxLevels).Ok?
    requires Updates(env, Built(env, leaves, minClusters, maxLevels).value, batches).root.Some?
    ensures var t0 := Built(env, leaves, minClusters, maxLevels).value;
            var t := Updates(env, t0, batches);
            var listed := t.root.value.papers;
            && listed <= NodePapers(t.clusters)
            && (listed == NodePapers(t.clusters) <==> AllListed(env, t0.clusters, Flatten(batches), listed))
  {
    var t0 := Built(env, leaves, minClusters, maxLevels).value;
    var arrivals := Flatten(batches);
    RunIsOneUpdate(env, t0, batches);
    RootListsAll(env, leaves, minClusters, maxLevels);
    var over := t0.root.value.(children := NodeIds(t0.clusters));
    forall i | 0 <= i < |t0.clusters| ensures t0.clusters[i].id in over.children {
      assert over.children[i] == t0.clusters[i].id;
    }
    AllLookedUp(t0.clusters, over);
    UpperPapersGoStale(env, t0.clusters, arrivals, over);
    var now := AttachAll(env, t0.clusters, arrivals);
    AttachedIsGrown(env, t0.clusters, arrivals);
    forall i | 0 <= i < |now| ensures now[i].id in over.children {
      assert now[i] == Grown(env, t0.clusters, arrivals, i);
    }
    AllLookedUp(now, over);
  }

  // ---------- both failures are reachable ----------

  /** What a cut and its score are known to be: a cut into at most k has at most k labels, and only a
      cut with at least two labels, and fewer labels than vectors, has a score. */
  ghost predicate Cuts(env: Env) {
    && Proper(env)
    && (forall vs, k: int :: k >= 1 ==> |Appearing(env.labels(vs, k))| <= k)
    && (forall vs, k: int :: env.score(vs, k).Some? ==> 2 <= |Appearing(env.labels(vs, k))| < |vs|)
  }

  function Coordinate(v: Vector, i: nat): real { if i < |v| then v[i] else 0.0 }

  function Sum(vs: seq<Vector>, i: nat): real {
    if vs == [] then 0.0 else Sum(vs[..|vs| - 1], i) + Coordinate(vs[|vs| - 1], i)
  }

  function Mean(vs: seq<Vector>): Vector {
    if vs == [] then [] else seq(|vs[0]|, i requires 0 <= i < |vs[0]| => Sum(vs, i) / |vs| as real)
  }

  /** On unit vectors of the plane, the cosine of the angle between them. */
  function Dot(v: Vector, w: Vector): real {
    Coordinate(v, 0) * Coordinate(w, 0) + Coordinate(v, 1) * Coordinate(w, 1)
  }

  /** The cuts of the witness: six vectors in three pairs, and three vectors of which the last two are near. */
  function PlaneLabels(n: nat, k: int): (r: seq<int>)
    ensures |r| == n
  {
    if n == 6 && k >= 3 then [0, 0, 1, 1, 2, 2]
    else if n == 3 && k == 2 then [0, 1, 1]
    else seq(n, _ => 0)
  }

  /** The pairs are cut perfectly at three; 67/120 is the mean silhouette of the three vectors cut in two. */
  function PlaneScore(n: nat, k: int): Option<real> {
    if n == 6 && k >= 3 then Some(1.0) else if n == 3 && k == 2 then Some(67.0 / 120.0) else None
  }

  function Plane(): Env {
    Env(vs => true, (vs: seq<Vector>, k: int) => PlaneScore(|vs|, k), (vs: seq<Vector>, k: int) => PlaneLabels(|vs|, k),
        vs => Mean(vs), (v: Vector, w: Vector) => Dot(v, w))
  }

  /** What is known of these numerics, as facts about any environment. */
  ghost predicate IsPlane(env: Env) {
    && (forall vs :: env.links(vs)) && (forall vs :: env.mean(vs) == Mean(vs))
    && (forall vs, k :: env.labels(vs, k) == PlaneLabels(|vs|, k))
    && (forall vs, k :: env.score(vs, k) == PlaneScore(|vs|, k))
    && (forall v, w :: env.similarity(v, w) == Dot(v, w))
  }

  lemma PlaneIs()
    ensures IsPlane(Plane())
  {
  }

  lemma {:induction false} OneLabel(labels: seq<int>, l: int)
    requires forall i :: 0 <= i < |labels| ==> labels[i] == l
    ensures |Appearing(labels)| <= 1
  {
    if labels != [] {
      var front := labels[..|labels| - 1];
      OneLabel(front, l);
      AppearingFacts(front);
      if Appearing(front) != [] { assert Appearing(front)[0] in Appearing(front); }
    }
  }

  lemma AppearingSnoc(labels: seq<int>, l: int)
    ensures Appearing(labels + [l]) == if l in Appearing(labels) then Appearing(labels) else Appearing(labels) + [l]
  {
    assert (labels + [l])[..|labels|] == labels;
  }

  /** A pair of one new label. */
  lemma AppearingPair(labels: seq<int>, l: int)
    requires l !in Appearing(labels)
    ensures Appearing(labels + [l, l]) == Appearing(labels) + [l]
  {
    assert labels + [l, l] == labels + [l] + [l];
    AppearingSnoc(labels, l);
    AppearingSnoc(labels + [l], l);
  }

  lemma PairsAppear()
    ensures Appearing([0, 0, 1, 1, 2, 2]) == [0, 1, 2] && Appearing([0, 1, 1]) == [0, 1]
  {
    AppearingPair([], 0);
    assert [] + [0, 0] == [0, 0] && [0, 0] + [1, 1] == [0, 0, 1, 1] && [0, 0, 1, 1] + [2, 2] == [0, 0, 1, 1, 2, 2];
    AppearingPair([0, 0], 1);
    AppearingPair([0, 0, 1, 1], 2);
    AppearingSnoc([], 0);
    assert [] + [0] == [0] && [0] + [1, 1] == [0, 1, 1];
    AppearingPair([0], 1);
  }

  lemma PlaneCut(n: nat, k: int)
    ensures k >= 1 ==> |Appearing(PlaneLabels(n, k))| <= k
    ensures PlaneScore(n, k).Some? ==> 2 <= |Appearing(PlaneLabels(n, k))| < n
  {
    PairsAppear();
    if PlaneScore(n, k) == None { OneLabel(PlaneLabels(n, k), 0); }
  }

  lemma PlaneCuts(env: Env)
    requires IsPlane(env)
    ensures Cuts(env) && KeepsDimension(env, 2)
  {
    forall vs: seq<Vector>, k: int
      ensures k >= 1 ==> |Appearing(env.labels(vs, k))| <= k
      ensures env.score(vs, k).Some? ==> 2 <= |Appearing(env.labels(vs, k))| < |vs|
    {
      PlaneCut(|vs|, k);
    }
  }

  function Sample(paper: string, v: Vector): Leaf { Leaf(paper, paper, v) }

  function East(): Vector { [1.0, 0.0] }

  function North(): Vector { [0.0, 1.0] }

  function NorthWest(): Vector { [-0.6, 0.8] }

  lemma EmbeddedStep(ls: seq<Leaf>, last: Leaf)
    ensures Embedded(ls + [last]) == Embedded(ls) + if last.embedding != [] then [last] else []
  {
    assert (ls + [last])[..|ls|] == ls;
  }

  /** A build can succeed and leave a leaf out of every cluster: one without an embedding, after
      three that have one. */
  lemma LeafCanBeLeftOut() returns (env: Env, leaves: seq<Leaf>)
    ensures Cuts(env) && |Embedded(leaves)| >= 3
    ensures Built(env, leaves, DEFAULT_MIN_CLUSTERS, DEFAULT_MAX_LEVELS).Ok?
    ensures multiset(Flatten(LeafGroups(env, leaves, DEFAULT_MIN_CLUSTERS))) != multiset(leaves)
  {
    var three := [Sample("a", East()), Sample("b", North()), Sample("c", NorthWest())];
    env, leaves := Plane(), three + [Sample("d", [])];
    PlaneIs();
    PlaneCuts(env);
    EmbeddedAll(three);
    EmbeddedStep(three, Sample("d", []));
    assert |Embedded(leaves)| == 3;
    BuildSucceeds(env, leaves, 2, DEFAULT_MIN_CLUSTERS, DEFAULT_MAX_LEVELS);
    ClustersPartitionLeaves(env, leaves, DEFAULT_MIN_CLUSTERS, DEFAULT_MAX_LEVELS);
    assert leaves[3].embedding == [];
  }

  /** One more labelled item, when the groups and labels so far are known. */
  lemma OneMoreGrouped<T>(items: seq<T>, labels: seq<int>, l: int, known: seq<int>, groups: seq<seq<T>>, p: nat)
    requires |labels| < |items| && known == Appearing(labels) && groups == Groups(items, labels) && p <= |known|
    requires if p < |known| then known[p] == l else l !in known
    ensures var item := items[|labels|];
            && Appearing(labels + [l]) == (if p < |known| then known else known + [l])
            && Groups(items, labels + [l]) ==
               if p < |known| then groups[p := groups[p] + [item]] else groups + [[item]]
  {
    assert (labels + [l])[..|labels|] == labels;
    GroupsStep(items, labels + [l]);
    AppearingFacts(labels);
  }

  lemma LastGrows<T>(groups: seq<seq<T>>, x: T, y: T, all: seq<seq<T>>)
    requires all == groups + [[x]]
    ensures all[|groups| := all[|groups|] + [y]] == groups + [[x, y]]
  {
    assert [x] + [y] == [x, y];
  }

  /** An item of a label not seen before opens a group. */
  lemma FirstOfLabel<T>(items: seq<T>, labels: seq<int>, l: int, groups: seq<seq<T>>, more: seq<int>)
    requires |labels| < |items| && l !in Appearing(labels) && groups == Groups(items, labels) && more == labels + [l]
    ensures Groups(items, more) == groups + [[items[|labels|]]] && Appearing(more)[|groups|..] == [l]
  {
    OneMoreGrouped(items, labels, l, Appearing(labels), groups, |Appearing(labels)|);
  }

  /** An item of the label that appeared last joins the last group. */
  lemma AnotherOfLast<T>(items: seq<T>, labels: seq<int>, l: int, groups: seq<seq<T>>, more: seq<int>)
    requires |labels| < |items| && groups == Groups(items, labels) && more == labels + [l]
    requires groups != [] && Appearing(labels)[|groups| - 1] == l
    ensures var p := |groups| - 1; Groups(items, more) == groups[p := groups[p] + [items[|labels|]]]
  {
    OneMoreGrouped(items, labels, l, Appearing(labels), groups, |groups| - 1);
  }

  /** Two items of one new label make one more group. */
  lemma PairGrouped<T>(items: seq<T>, labels: seq<int>, l: int, groups: seq<seq<T>>, one: seq<int>, two: seq<int>)
    requires |labels| + 1 < |items| && l !in Appearing(labels) && groups == Groups(items, labels)
    requires one == labels + [l] && two == one + [l]
    ensures Groups(items, two) == groups + [[items[|labels|], items[|labels| + 1]]]
  {
    FirstOfLabel(items, labels, l, groups, one);
    AnotherOfLast(items, one, l, groups + [[items[|labels|]]], two);
    LastGrows(groups, items[|labels|], items[|labels| + 1], groups + [[items[|labels|]]]);
  }

  lemma OnePair<T>(items: seq<T>)
    requires |items| >= 2
    ensures Groups(items, [0, 0]) == [[items[0], items[1]]] && Appearing([0, 0]) == [0]
  {
    PairGrouped(items, [], 0, [], [0], [0, 0]);
    AppearingPair([], 0);
    assert [] + [0, 0] == [0, 0];
  }

  lemma TwoPairs<T>(items: seq<T>)
    requires |items| >= 4
    ensures Groups(items, [0, 0, 1, 1]) == [[items[0], items[1]], [items[2], items[3]]]
  {
    OnePair(items);
    PairGrouped(items, [0, 0], 1, [[items[0], items[1]]], [0, 0, 1], [0, 0, 1, 1]);
  }

  lemma GroupsOfPairs<T>(items: seq<T>)
    requires |items| == 6
    ensures Groups(items, [0, 0, 1, 1, 2, 2]) == [[items[0], items[1]], [items[2], items[3]], [items[4], items[5]]]
  {
    var labels := [0, 0, 1, 1];
    TwoPairs(items);
    assert 2 !in Appearing(labels) by { AppearingFacts(labels); }
    PairGrouped(items, labels, 2, [[items[0], items[1]], [items[2], items[3]]], labels + [2], labels + [2] + [2]);
    assert labels + [2] + [2] == [0, 0, 1, 1, 2, 2];
  }

  lemma GroupsOfThree<T>(items: seq<T>)
    requires |items| == 3
    ensures Groups(items, [0, 1, 1]) == [[items[0]], [items[1], items[2]]]
  {
    AppearingSnoc([], 0);
    FirstOfLabel(items, [], 0, [], [0]);
    PairGrouped(items, [0], 1, [[items[0]]], [0, 1], [0, 1, 1]);
  }

  /** Six vectors are cut into three, and three vectors into two. */
  lemma PlaneChoices(env: Env, vectors: seq<Vector>)
    requires IsPlane(env)
    ensures |vectors| == 6 ==> ChosenK(env, vectors, DEFAULT_MIN_CLUSTERS) >= 3
    ensures |vectors| == 3 ==> ChosenK(env, vectors, 2) == 2
  {
    var score := (k: int) => env.score(vectors, k);
    BestIsFirstMaximum(score, 3, 4);
    BestIsFirstMaximum(score, 2, 3);
    assert score(2) == PlaneScore(|vectors|, 2) && score(3) == PlaneScore(|vectors|, 3);
  }

  /** Numerics that cut six items into three pairs and three items into one and two. */
  ghost predicate CutsSo(env: Env) {
    && Proper(env) && (forall vs :: env.links(vs))
    && (forall vs :: |vs| == 6 ==> env.labels(vs, ChosenK(env, vs, DEFAULT_MIN_CLUSTERS)) == [0, 0, 1, 1, 2, 2])
    && (forall vs :: |vs| == 3 ==> env.labels(vs, ChosenK(env, vs, 2)) == [0, 1, 1])
  }

  lemma PlaneCutsSo(env: Env)
    requires IsPlane(env)
    ensures CutsSo(env)
  {
    forall vs: seq<Vector> | |vs| == 6
      ensures env.labels(vs, ChosenK(env, vs, DEFAULT_MIN_CLUSTERS)) == [0, 0, 1, 1, 2, 2]
    {
      PlaneChoices(env, vs);
    }
    forall vs: seq<Vector> | |vs| == 3 ensures env.labels(vs, ChosenK(env, vs, 2)) == [0, 1, 1] {
      PlaneChoices(env, vs);
    }
  }

  /** Six leaves make three clusters of two, and those a topic of one and a topic of two. */
  lemma {:induction false} BuiltInPairs(env: Env, leaves: seq<Leaf>, t: Tree)
    requires CutsSo(env) && |leaves| == |Embedded(leaves)| == 6
    requires Built(env, leaves, DEFAULT_MIN_CLUSTERS, DEFAULT_MAX_LEVELS) == Ok(t)
    ensures t.clusters == ClusterNodes(env, [[leaves[0], leaves[1]], [leaves[2], leaves[3]], [leaves[4], leaves[5]]])
    ensures |t.topics| == 2 && t.topics[0] == TopicNode(env, 0, [t.clusters[0]]) && t.root.Some?
  {
    EmbeddedAll(leaves);
    GroupsOfPairs(leaves);
    GroupsOfThree(t.clusters);
  }

  /** Where a leaf goes that is nearest to the first cluster. */
  lemma JoinsFirst(env: Env, clusters: seq<Node>, leaf: Leaf)
    requires clusters != [] && clusters[0].embedding != [] && leaf.embedding != []
    requires env.similarity(leaf.embedding, clusters[0].embedding) == 1.0
    requires forall i :: 0 <= i < |clusters| ==> env.similarity(leaf.embedding, clusters[i].embedding) <= 1.0
    ensures Chosen(env, clusters, [leaf], 0) == [leaf]
  {
    NearestIsMaximal(env, clusters, leaf.embedding);
    assert [leaf][..0] == [];
  }

  lemma MeanOfTwo(v: Vector)
    ensures Mean([v, v]) == v
  {
    forall i: nat | i < |v| ensures Sum([v, v], i) / 2.0 == v[i] {
      assert [v, v][..1] == [v] && [v][..0] == [];
      assert Sum([v], i) == v[i];
    }
  }

  /** A leaf that joins the first cluster, with a paper that neither the first topic nor the root lists. */
  ghost predicate BringsNew(env: Env, t: Tree, leaf: Leaf) {
    && t.clusters != [] && t.topics != [] && t.root.Some?
    && t.clusters[0].id in t.topics[0].children && Chosen(env, t.clusters, [leaf], 0) == [leaf]
    && leaf.paper !in t.topics[0].papers && leaf.paper !in t.root.value.papers
  }

  ghost predicate BothStale(t: Tree) {
    && t.topics != [] && t.topics[0].papers != PapersOf(t.clusters, t.topics[0].children)
    && t.root.Some? && t.root.value.papers != NodePapers(t.clusters)
  }

  /** Such an update leaves both stale. */
  lemma TopicGoesStale(env: Env, leaves: seq<Leaf>, minClusters: int, maxLevels: int, t0: Tree, leaf: Leaf)
    requires Proper(env) && Built(env, leaves, minClusters, maxLevels) == Ok(t0) && BringsNew(env, t0, leaf)
    ensures var t := Updates(env, t0, [[leaf]]);
            t.topics != [] && t.topics[0].papers != PapersOf(t.clusters, t.topics[0].children)
  {
    RunIsOneUpdate(env, t0, [[leaf]]);
    OneBatch(leaf);
    TopicPapersAfterRun(env, leaves, minClusters, maxLevels, [[leaf]], 0);
  }

  lemma RootGoesStale(env: Env, leaves: seq<Leaf>, minClusters: int, maxLevels: int, t0: Tree, leaf: Leaf)
    requires Proper(env) && Built(env, leaves, minClusters, maxLevels) == Ok(t0) && BringsNew(env, t0, leaf)
    ensures var t := Updates(env, t0, [[leaf]]); t.root.Some? && t.root.value.papers != NodePapers(t.clusters)
  {
    RunIsOneUpdate(env, t0, [[leaf]]);
    OneBatch(leaf);
    assert !AllListed(env, t0.clusters, [leaf], t0.root.value.papers);
    RootPapersAfterRun(env, leaves, minClusters, maxLevels, [[leaf]]);
  }

  lemma OneBatch(leaf: Leaf)
    ensures Flatten([[leaf]]) == [leaf] && leaf.paper in LeafPapers([leaf])
  {
    assert [[leaf]][..0] == [];
    assert [leaf][0].paper == leaf.paper;
  }

  function SixLeaves(): seq<Leaf> {
    [Sample("a", East()), Sample("b", East()), Sample("c", North()), Sample("d", North()),
     Sample("e", NorthWest()), Sample("f", NorthWest())]
  }

  /** The clusters of three pairs of leaves have the pairs' vectors, and no papers but theirs. */
  lemma PairCluster(env: Env, i: nat, a: Leaf, b: Leaf, paper: string)
    requires env.mean(LeafVectors([a, b])) == Mean(LeafVectors([a, b])) && a.embedding == b.embedding
    requires paper != a.paper && paper != b.paper
    ensures ClusterNode(env, i, [a, b]).embedding == a.embedding && paper !in ClusterNode(env, i, [a, b]).papers
  {
    assert LeafVectors([a, b]) == [a.embedding, a.embedding];
    MeanOfTwo(a.embedding);
  }

  /** A leaf to the east is nearest to the first of three clusters in the east, north and north-west. */
  lemma SeventhJoinsFirst(env: Env, clusters: seq<Node>, leaf: Leaf)
    requires forall v, w :: env.similarity(v, w) == Dot(v, w)
    requires |clusters| == 3 && leaf.embedding == East() == clusters[0].embedding
    requires clusters[1].embedding == North() && clusters[2].embedding == NorthWest()
    ensures Chosen(env, clusters, [leaf], 0) == [leaf]
  {
    assert Dot(East(), East()) == 1.0 && Dot(East(), North()) == 0.0 && Dot(East(), NorthWest()) == -0.6;
    JoinsFirst(env, clusters, leaf);
  }

  lemma NotListed(env: Env, clusters: seq<Node>, paper: string)
    requires clusters != [] && forall i :: 0 <= i < |clusters| ==> paper !in clusters[i].papers
    ensures paper !in NodePapers(clusters) && paper !in TopicNode(env, 0, [clusters[0]]).papers
  {
  }

  /** Two leaves each in the east, north and north-west, none with the given paper. */
  ghost predicate ThreePairs(leaves: seq<Leaf>, paper: string) {
    && |leaves| == 6 && (forall i :: 0 <= i < 6 ==> leaves[i].paper != paper)
    && leaves[0].embedding == leaves[1].embedding == East() && leaves[2].embedding == leaves[3].embedding == North()
    && leaves[4].embedding == leaves[5].embedding == NorthWest()
  }

  lemma PairsEmbedded(leaves: seq<Leaf>, paper: string)
    requires ThreePairs(leaves, paper)
    ensures Embedded(leaves) == leaves && Dimension(LeafVectors(leaves), 2)
  {
    EmbeddedAll(leaves);
  }

  lemma ClustersOfPairs(env: Env, leaves: seq<Leaf>, paper: string, clusters: seq<Node>)
    requires (forall vs :: env.mean(vs) == Mean(vs)) && ThreePairs(leaves, paper)
    requires clusters == ClusterNodes(env, [[leaves[0], leaves[1]], [leaves[2], leaves[3]], [leaves[4], leaves[5]]])
    ensures clusters[0].embedding == East() && clusters[1].embedding == North() && clusters[2].embedding == NorthWest()
    ensures forall i :: 0 <= i < |clusters| ==> paper !in clusters[i].papers
  {
    PairCluster(env, 0, leaves[0], leaves[1], paper);
    PairCluster(env, 1, leaves[2], leaves[3], paper);
    PairCluster(env, 2, leaves[4], leaves[5], paper);
  }

  lemma SeventhBringsNew(env: Env, leaves: seq<Leaf>, t: Tree, leaf: Leaf)
    requires (forall vs :: env.mean(vs) == Mean(vs)) && (forall v, w :: env.similarity(v, w) == Dot(v, w))
    requires ThreePairs(leaves, leaf.paper) && leaf.embedding == East()
    requires t.clusters == ClusterNodes(env, [[leaves[0], leaves[1]], [leaves[2], leaves[3]], [leaves[4], leaves[5]]])
    requires t.topics != [] && t.topics[0] == TopicNode(env, 0, [t.clusters[0]])
    requires t.root.Some? && t.root.value.papers == NodePapers(t.clusters)
    ensures BringsNew(env, t, leaf)
  {
    assert t.topics[0].children[0] == t.clusters[0].id;
    ClustersOfPairs(env, leaves, leaf.paper, t.clusters);
    SeventhJoinsFirst(env, t.clusters, leaf);
    NotListed(env, t.clusters, leaf.paper);
  }

  lemma SeventhMakesStale(env: Env, leaves: seq<Leaf>, t: Tree, leaf: Leaf)
    requires CutsSo(env) && (forall vs :: env.mean(vs) == Mean(vs))
    requires forall v, w :: env.similarity(v, w) == Dot(v, w)
    requires ThreePairs(leaves, leaf.paper) && leaf.embedding == East() && Embedded(leaves) == leaves
    requires Built(env, leaves, DEFAULT_MIN_CLUSTERS, DEFAULT_MAX_LEVELS) == Ok(t)
    ensures BothStale(Updates(env, t, [[leaf]]))
  {
    BuiltInPairs(env, leaves, t);
    RootListsAll(env, leaves, DEFAULT_MIN_CLUSTERS, DEFAULT_MAX_LEVELS);
    SeventhBringsNew(env, leaves, t, leaf);
    TopicGoesStale(env, leaves, DEFAULT_MIN_CLUSTERS, DEFAULT_MAX_LEVELS, t, leaf);
    RootGoesStale(env, leaves, DEFAULT_MIN_CLUSTERS, DEFAULT_MAX_LEVELS, t, leaf);
  }

  /** Topics and root do go stale, under cuts and scores as they can be: six leaves in three pairs make
      three clusters and two topics, and a seventh leaf with a new paper then joins the first pair. */
  lemma TopicAndRootCanGoStale() returns (env: Env, leaves: seq<Leaf>, more: seq<Leaf>)
    ensures Cuts(env) && Built(env, leaves, DEFAULT_MIN_CLUSTERS, DEFAULT_MAX_LEVELS).Ok?
    ensures BothStale(Updates(env, Built(env, leaves, DEFAULT_MIN_CLUSTERS, DEFAULT_MAX_LEVELS).value, [more]))
  {
    env, leaves, more := Plane(), SixLeaves(), [Sample("g", East())];
    PlaneIs();
    PlaneGoesStale(env, leaves, more[0]);
  }

  lemma PlaneGoesStale(env: Env, leaves: seq<Leaf>, leaf: Leaf)
    requires IsPlane(env) && ThreePairs(leaves, leaf.paper) && leaf.embedding == East()
    ensures Cuts(env) && Built(env, leaves, DEFAULT_MIN_CLUSTERS, DEFAULT_MAX_LEVELS).Ok?
    ensures BothStale(Updates(env, Built(env, leaves, DEFAULT_MIN_CLUSTERS, DEFAULT_MAX_LEVELS).value, [[leaf]]))
  {
    PlaneCuts(env);
    PlaneCutsSo(env);
    PairsEmbedded(leaves, leaf.paper);
    BuildSucceeds(env, leaves, 2, DEFAULT_MIN_CLUSTERS, DEFAULT_MAX_LEVELS);
    SeventhMakesStale(env, leaves, Built(env, leaves, DEFAULT_MIN_CLUSTERS, DEFAULT_MAX_LEVELS).value, leaf);
  }

  // ---------- levels and totals ----------

  function LevelOf(n: AnyNode): nat { if n.LeafNode? then 0 else n.node.level }

  ghost predicate LevelsFit(t: Tree) {
    && (forall i :: 0 <= i < |t.clusters| ==> t.clusters[i].level == 1)
    && (forall i :: 0 <= i < |t.topics| ==> t.topics[i].level == 2)
    && (t.root.Some? ==> t.root.value.level == 3)
    && (t.topics != [] ==> t.clusters != [])
  }

  /** The reported level count is one more than the highest level of any node, and the reported
      total counts every node once. */
  lemma LevelsAreHighest(t: Tree)
    requires Synced(t) && LevelsFit(t) && t.leaves != []
    ensures forall i :: 0 <= i < |t.allNodes| ==> LevelOf(t.allNodes[i]) < Levels(t)
    ensures exists i :: 0 <= i < |t.allNodes| && LevelOf(t.allNodes[i]) == Levels(t) - 1
    ensures |t.allNodes| == |t.leaves| + |t.clusters| + |t.topics| + if t.root.Some? then 1 else 0
  {
    assert LevelOf(t.allNodes[|t.allNodes| - 1]) == Levels(t) - 1;
  }

  lemma {:induction false} AppearingSome(labels: seq<int>)
    requires labels != []
    ensures Appearing(labels) != []
  {
    var before, last := Appearing(labels[..|labels| - 1]), labels[|labels| - 1];
    assert last in before ==> before != [];
  }

  lemma ClusteredSome<T>(env: Env, vectors: seq<Vector>, items: seq<T>, minK: int)
    requires Proper(env) && |vectors| <= |items|
    ensures Clustered(env, vectors, items, minK) != []
  {
    if |vectors| >= 3 && env.links(vectors) { AppearingSome(env.labels(vectors, ChosenK(env, vectors, minK))); }
  }

  /** Which levels a build makes: clusters exactly when three leaves have an embedding, topics exactly over three
      clusters when three levels are allowed, a root exactly over any clusters when four are. */
  lemma LevelsBuilt(env: Env, leaves: seq<Leaf>, minClusters: int, maxLevels: int)
    requires Proper(env) && Built(env, leaves, minClusters, maxLevels).Ok?
    ensures var t := Built(env, leaves, minClusters, maxLevels).value;
            && t.leaves == leaves
            && (t.clusters != [] <==> |Embedded(leaves)| >= 3)
            && (t.topics != [] <==> |t.clusters| >= 3 && maxLevels >= 3)
            && (t.root.Some? <==> |Embedded(leaves)| >= 3 && maxLevels >= 4)
  {
    if |Embedded(leaves)| >= 3 {
      ClusteredSome(env, LeafVectors(Embedded(leaves)), leaves, minClusters);
      var clusters := ClusterNodes(env, LeafGroups(env, leaves, minClusters));
      ClusteredSome(env, NodeVectors(clusters), clusters, 2);
    }
  }

  /** Vectors of two lengths cannot be averaged or stacked. */
  ghost predicate Ragged(vs: seq<Vector>) { exists i, j :: 0 <= i < |vs| && 0 <= j < |vs| && |vs[i]| != |vs[j]| }

  /** When a build fails: exactly when it meets ragged vectors - among the embedded leaves, in a cluster, among the
      clusters it groups into topics, or among the nodes it puts under the root. */
  lemma BuildFailsExactly(env: Env, leaves: seq<Leaf>, minClusters: int, maxLevels: int)
    requires Proper(env)
    ensures var groups := LeafGroups(env, leaves, minClusters);
            var clusters := ClusterNodes(env, groups);
            var topics := if |clusters| >= 3 && maxLevels >= 3
                          then TopicNodes(env, Clustered(env, NodeVectors(clusters), clusters, 2)) else [];
            Built(env, leaves, minClusters, maxLevels).Err? <==>
              || Ragged(LeafVectors(Embedded(leaves)))
              || (|Embedded(leaves)| >= 3
                  && (|| (exists i :: 0 <= i < |groups| && Ragged(LeafVectors(groups[i])))
                      || (topics != [] && Ragged(NodeVectors(clusters)))
                      || (maxLevels >= 4 && Ragged(NodeVectors(if topics != [] then topics else clusters)))))
  {
    var groups := LeafGroups(env, leaves, minClusters);
    var clusters := ClusterNodes(env, groups);
    RaggedIsNotUniform(LeafVectors(Embedded(leaves)));
    forall i | 0 <= i < |groups| ensures Ragged(LeafVectors(groups[i])) <==> !Uniform(LeafVectors(groups[i])) {
      RaggedIsNotUniform(LeafVectors(groups[i]));
    }
    RaggedIsNotUniform(NodeVectors(clusters));
    RaggedIsNotUniform(NodeVectors(Topics(env, clusters, maxLevels)));
    ClusteredSome(env, NodeVectors(clusters), clusters, 2);
  }

  lemma RaggedIsNotUniform(vs: seq<Vector>)
    ensures Ragged(vs) <==> !Uniform(vs)
  {
    if i, j :| 0 <= i < |vs| && 0 <= j < |vs| && |vs[i]| != |vs[j]| { assert i < j || j < i; }
  }

  lemma BuiltLevelsFit(env: Env, leaves: seq<Leaf>, minClusters: int, maxLevels: int)
    requires Proper(env) && Built(env, leaves, minClusters, maxLevels).Ok?
    ensures LevelsFit(Built(env, leaves, minClusters, maxLevels).value)
  {
  }

  /** So the report is right after any run of updates on a built tree too: its nodes keep their levels. */
  lemma LevelsAfterRun(env: Env, leaves: seq<Leaf>, minClusters: int, maxLevels: int, batches: seq<seq<Leaf>>)
    requires Proper(env) && Built(env, leaves, minClusters, maxLevels).Ok?
    ensures var t := Updates(env, Built(env, leaves, minClusters, maxLevels).value, batches);
            && Synced(t) && LevelsFit(t)
            && (t.leaves != [] ==> exists i :: 0 <= i < |t.allNodes| && LevelOf(t.allNodes[i]) == Levels(t) - 1)
            && (forall i :: 0 <= i < |t.allNodes| && t.leaves != [] ==> LevelOf(t.allNodes[i]) < Levels(t))
  {
    var t0 := Built(env, leaves, minClusters, maxLevels).value;
    var t := Updates(env, t0, batches);
    BuiltLevelsFit(env, leaves, minClusters, maxLevels);
    RunIsOneUpdate(env, t0, batches);
    AttachedIsGrown(env, t0.clusters, Flatten(batches));
    forall i | 0 <= i < |t.clusters| ensures t.clusters[i].level == 1 {
      assert t.clusters[i] == Grown(env, t0.clusters, Flatten(batches), i);
    }
    if t.leaves != [] { LevelsAreHighest(t); }
  }

  /** Updates move no vector: after any run each cluster stands at the mean of the leaves it was built from, each
      topic at the mean of some of the clusters, and the root at the mean of the topics, or of the clusters when
      there are none. */
  lemma VectorsAfterRun(env: Env, leaves: seq<Leaf>, minClusters: int, maxLevels: int, batches: seq<seq<Leaf>>)
    requires Proper(env) && Built(env, leaves, minClusters, maxLevels).Ok?
    ensures var groups, t := BuiltGroups(env, leaves, minClusters),
                             Updates(env, Built(env, leaves, minClusters, maxLevels).value, batches);
            && |t.clusters| == |groups|
            && (forall i :: 0 <= i < |groups| ==> t.clusters[i].embedding == env.mean(LeafVectors(groups[i])))
            && (t.root.Some? ==>
                  t.root.value.embedding == env.mean(NodeVectors(if t.topics != [] then t.topics else t.clusters)))
  {
    var t0, groups := Built(env, leaves, minClusters, maxLevels).value, BuiltGroups(env, leaves, minClusters);
    RunIsOneUpdate(env, t0, batches);
    AttachedIsGrown(env, t0.clusters, Flatten(batches));
    var now := AttachAll(env, t0.clusters, Flatten(batches));
    forall i | 0 <= i < |groups| ensures now[i].embedding == t0.clusters[i].embedding {
      assert now[i] == Grown(env, t0.clusters, Flatten(batches), i);
    }
    assert NodeVectors(now) == NodeVectors(t0.clusters);
  }

  // ---------- queries ----------

  predicate Searchable(zero: Vector -> bool, levels: seq<nat>, n: AnyNode) {
    && (levels == [] || LevelOf(n) in levels)
    && var v := if n.LeafNode? then n.leaf.embedding else n.node.embedding;
       v != [] && !zero(v)
  }

  function VectorOf(n: AnyNode): Vector { if n.LeafNode? then n.leaf.embedding else n.node.embedding }

  function Candidates(zero: Vector -> bool, levels: seq<nat>, nodes: seq<AnyNode>): seq<AnyNode> {
    if nodes == [] then []
    else
      var last := nodes[|nodes| - 1];
      Candidates(zero, levels, nodes[..|nodes| - 1]) + if Searchable(zero, levels, last) then [last] else []
  }

  lemma {:induction false} CandidatesAre(zero: Vector -> bool, levels: seq<nat>, nodes: seq<AnyNode>)
    ensures forall n :: n in Candidates(zero, levels, nodes) <==> n in nodes && Searchable(zero, levels, n)
  {
    if nodes != [] {
      CandidatesAre(zero, levels, nodes[..|nodes| - 1]);
      assert nodes == nodes[..|nodes| - 1] + [nodes[|nodes| - 1]];
    }
  }

  function Score(env: Env, query: Vector, n: AnyNode): real { env.similarity(query, VectorOf(n)) }

  /** A stable descending sort: higher score first, equal scores in the order of the nodes. */
  function ByScore(env: Env, query: Vector, nodes: seq<AnyNode>): Ranking.Order {
    (i: nat, j: nat) =>
      i < |nodes| && j < |nodes|
      && (Score(env, query, nodes[i]) > Score(env, query, nodes[j])
          || (Score(env, query, nodes[i]) == Score(env, query, nodes[j]) && i < j))
  }

  /** How many results a slice [:topK] keeps of n. */
  function Kept(n: nat, topK: int): nat {
    if topK >= 0 then (if topK < n then topK else n) else if n + topK > 0 then n + topK else 0
  }

  /** The answer to a query: positions among the candidates, best first. */
  function Query(env: Env, zero: Vector -> bool, t: Tree, query: Vector, topK: int, levels: seq<nat>): seq<nat> {
    if query == [] || zero(query) then []
    else
      var nodes := Candidates(zero, levels, t.allNodes);
      KeptLength(ByScore(env, query, nodes), |nodes|, topK);
      Ranking.Rank(ByScore(env, query, nodes), |nodes|)[..Kept(|nodes|, topK)]
  }

  lemma KeptLength(before: Ranking.Order, n: nat, topK: int)
    ensures Kept(n, topK) <= |Ranking.Rank(before, n)|
  {
    Ranking.RankLength(before, n);
  }

  /** Which nodes are scored: those of a wanted level - any, when none is asked for; leaves are level 0 - that have
      a vector, and not a zero one. */
  lemma ScoredExactly(zero: Vector -> bool, levels: seq<nat>, t: Tree, n: AnyNode)
    ensures n in Candidates(zero, levels, t.allNodes) <==>
              && n in t.allNodes
              && (levels != [] ==> (match n case LeafNode(_) => 0 case Inner(node) => node.level) in levels)
              && var v := match n case LeafNode(leaf) => leaf.embedding case Inner(node) => node.embedding;
                 !(v == [] || zero(v))
  {
    CandidatesAre(zero, levels, t.allNodes);
  }

  /** The slice [:topK] keeps the first topK of n, or for a negative topK all but the last -topK. */
  lemma SliceKeeps(n: nat, topK: int, i: nat)
    requires i < n
    ensures Kept(n, topK) <= n
    ensures i < Kept(n, topK) <==> if topK < 0 then n - i > -topK else topK > i
  {
  }

  /** A query without a vector, or with a zero one, finds nothing. */
  lemma NoQueryNoAnswer(env: Env, zero: Vector -> bool, t: Tree, query: Vector, topK: int, levels: seq<nat>)
    requires query == [] || zero(query)
    ensures Query(env, zero, t, query, topK, levels) == []
  {
  }

  /** A query returns as many nodes as the slice keeps, in non-increasing score, ties in tree order,
      and leaves out no searchable node that scores above a returned one. */
  lemma QueryIsBest(env: Env, zero: Vector -> bool, t: Tree, query: Vector, topK: int, levels: seq<nat>)
    requires query != [] && !zero(query)
    ensures var nodes := Candidates(zero, levels, t.allNodes);
            var r := Query(env, zero, t, query, topK, levels);
            && |r| == Kept(|nodes|, topK)
            && (forall a :: 0 <= a < |r| ==> r[a] < |nodes|)
            && (forall a, b :: 0 <= a < b < |r| ==> ByScore(env, query, nodes)(r[a], r[b]))
            && (forall a, i: nat :: 0 <= a < |r| && i < |nodes| && i !in r ==> ByScore(env, query, nodes)(r[a], i))
  {
    var nodes := Candidates(zero, levels, t.allNodes);
    var before := ByScore(env, query, nodes);
    assert Ranking.TotalOrder(before, |nodes|);
    Ranking.RankFacts(before, |nodes|);
    var order := Ranking.Rank(before, |nodes|);
    var r := Query(env, zero, t, query, topK, levels);
    forall a | 0 <= a < |r| ensures r[a] < |nodes| { assert order[a] in order; }
    forall a, i: nat | 0 <= a < |r| && i < |nodes| && i !in r ensures before(r[a], i) {
      Ranking.CutIsBest(before, |nodes|, order, |r|, a, i);
    }
  }

  // ---------- the service ----------

  datatype Report = Report(treeId: string, levels: nat, totalNodes: nat)

  function ReportOf(id: string, t: Tree): Report { Report(id, Levels(t), |t.allNodes|) }

  const DEFAULT_MIN_CLUSTERS := 3
  const DEFAULT_MAX_LEVELS := 4

  method BuildClusters(env: Env, groups: seq<seq<Leaf>>) returns (r: Result<seq<Node>, Error>)
    ensures r.Ok? <==> forall i :: 0 <= i < |groups| ==> Uniform(LeafVectors(groups[i]))
    ensures r.Ok? ==> r.value == ClusterNodes(env, groups)
  {
    var clusters: seq<Node> := [];
    for i := 0 to |groups|
      invariant clusters == ClusterNodes(env, groups)[..i]
      invariant forall j :: 0 <= j < i ==> Uniform(LeafVectors(groups[j]))
    {
      if !Uniform(LeafVectors(groups[i])) { return Err(RaggedVectors); }
      clusters := clusters + [ClusterNode(env, i, groups[i])];
    }
    assert ClusterNodes(env, groups)[..|groups|] == ClusterNodes(env, groups);
    r := Ok(clusters);
  }

  method BuildTopics(env: Env, clusters: seq<Node>, maxLevels: int) returns (topics: seq<Node>)
    requires Proper(env)
    ensures topics == Topics(env, clusters, maxLevels)
  {
    topics := [];
    if |clusters| >= 3 && maxLevels >= 3 {
      var groups := AdaptiveCluster(env, NodeVectors(clusters), clusters, 2);
      for i := 0 to |groups|
        invariant topics == TopicNodes(env, groups)[..i]
      {
        topics := topics + [TopicNode(env, i, groups[i])];
      }
    }
  }

  method BuildTree(env: Env, leaves: seq<Leaf>, minClusters: int, maxLevels: int) returns (r: Result<Tree, Error>)
    requires Proper(env)
    ensures r == Built(env, leaves, minClusters, maxLevels)
  {
    var embedded := Embedded(leaves);
    if !Uniform(LeafVectors(embedded)) { return Err(RaggedVectors); }
    if |embedded| < 3 { return Ok(MakeTree(leaves, [], [], None)); }
    var groups := AdaptiveCluster(env, LeafVectors(embedded), leaves, minClusters);
    var built := BuildClusters(env, groups);
    if built.Err? { return Err(RaggedVectors); }
    var clusters := built.value;
    if |clusters| >= 3 && maxLevels >= 3 && !Uniform(NodeVectors(clusters)) { return Err(RaggedVectors); }
    var topics := BuildTopics(env, clusters, maxLevels);
    var top := if topics != [] then topics else clusters;
    if top != [] && maxLevels >= 4 && !Uniform(NodeVectors(top)) { return Err(RaggedVectors); }
    r := Ok(MakeTree(leaves, clusters, topics, Root(env, top, maxLevels)));
  }

  method FindCluster(env: Env, clusters: seq<Node>, v: Vector) returns (best: Option<nat>)
    ensures best == Nearest(env, clusters, v).0
  {
    best := None;
    var bestScore := -1.0;
    for i := 0 to |clusters|
      invariant (best, bestScore) == Nearest(env, clusters[..i], v)
    {
      assert clusters[..i + 1][..i] == clusters[..i];
      if clusters[i].embedding == [] { continue; }
      var score := env.similarity(v, clusters[i].embedding);
      if score > bestScore {
        bestScore := score;
        best := Some(i);
      }
    }
    assert clusters[..|clusters|] == clusters;
  }

  method AttachLeaves(env: Env, before: seq<Node>, leaves: seq<Leaf>) returns (clusters: seq<Node>)
    ensures clusters == AttachAll(env, before, leaves)
  {
    clusters := before;
    for i := 0 to |leaves|
      invariant clusters == AttachAll(env, before, leaves[..i])
    {
      assert leaves[..i + 1][..i] == leaves[..i];
      if leaves[i].embedding == [] || clusters == [] { continue; }
      NearestIsMaximal(env, clusters, leaves[i].embedding);
      var best := FindCluster(env, clusters, leaves[i].embedding);
      if best.Some? { clusters := clusters[best.value := Attach(clusters[best.value], leaves[i])]; }
    }
    assert leaves[..|leaves|] == leaves;
  }

  class RaptorService {
    var trees: map<string, Tree>

    constructor ()
      ensures trees == map[]
    {
      trees := map[];
    }

    /** A failed build stores nothing. */
    method BuildAdaptiveTree(env: Env, id: string, leaves: seq<Leaf>, minClusters: int, maxLevels: int)
      returns (r: Result<Report, Error>)
      requires Proper(env)
      modifies this
      ensures match Built(env, leaves, minClusters, maxLevels)
              case Ok(t) => trees == old(trees)[id := t] && r == Ok(ReportOf(id, t))
              case Err(e) => trees == old(trees) && r == Err(e)
    {
      var built := BuildTree(env, leaves, minClusters, maxLevels);
      if built.Err? { return Err(built.error); }
      trees := trees[id := built.value];
      r := Ok(ReportOf(id, built.value));
    }

    /** An unknown tree id builds a new tree, under a fresh id. */
    method IncrementalUpdate(env: Env, id: string, freshId: string, more: seq<Leaf>) returns (r: Result<Report, Error>)
      requires Proper(env)
      modifies this
      ensures id in old(trees) ==>
                trees == old(trees)[id := Updated(env, old(trees)[id], more)] && r == Ok(ReportOf(id, trees[id]))
      ensures id !in old(trees) ==>
                match Built(env, more, DEFAULT_MIN_CLUSTERS, DEFAULT_MAX_LEVELS)
                case Ok(t) => trees == old(trees)[freshId := t] && r == Ok(ReportOf(freshId, t))
                case Err(e) => trees == old(trees) && r == Err(e)
    {
      if id !in trees {
        r := BuildAdaptiveTree(env, freshId, more, DEFAULT_MIN_CLUSTERS, DEFAULT_MAX_LEVELS);
        return;
      }
      var t := trees[id];
      var clusters := AttachLeaves(env, t.clusters, more);
      trees := trees[id := MakeTree(t.leaves + more, clusters, t.topics, t.root)];
      r := Ok(ReportOf(id, trees[id]));
    }
  }
}
