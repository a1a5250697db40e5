/** Python's stable sort of positions, as insertion of each position after its equals. */
module Ranking {

  type Order = (nat, nat) -> bool

  /** A strict total order on positions below n. */
  ghost predicate TotalOrder(before: Order, n: nat) {
    && (forall i: nat, j: nat :: i < n && j < n && before(i, j) ==> !before(j, i))
    && (forall i: nat, j: nat :: i < n && j < n && i != j ==> before(i, j) || before(j, i))
    && (forall i: nat, j: nat, k: nat :: i < n && j < n && k < n && before(i, j) && before(j, k) ==> before(i, k))
  }

  ghost predicate Sorted(before: Order, order: seq<nat>) {
    forall a, b :: 0 <= a < b < |order| ==> before(order[a], order[b])
  }

  /** The positions 0..n-1, each once. */
  ghost predicate Permutes(order: seq<nat>, n: nat) {
    |order| == n && forall i: nat :: i in order <==> i < n
  }

  function Insert(before: Order, order: seq<nat>, x: nat): seq<nat> {
    if order == [] || before(order[|order| - 1], x) then order + [x]
    else Insert(before, order[..|order| - 1], x) + [order[|order| - 1]]
  }

  function Rank(before: Order, n: nat): seq<nat> {
    if n == 0 then [] else Insert(before, Rank(before, n - 1), n - 1)
  }

  lemma {:induction false} InsertKeeps(before: Order, order: seq<nat>, x: nat)
    ensures |Insert(before, order, x)| == |order| + 1
    ensures forall y: nat :: y in Insert(before, order, x) <==> y in order || y == x
  {
    if order != [] && !before(order[|order| - 1], x) {
      InsertKeeps(before, order[..|order| - 1], x);
      assert order == order[..|order| - 1] + [order[|order| - 1]];
    }
  }

  lemma {:induction false} RankLength(before: Order, n: nat)
    ensures |Rank(before, n)| == n
  {
    if n > 0 {
      RankLength(before, n - 1);
      InsertKeeps(before, Rank(before, n - 1), n - 1);
    }
  }

  lemma {:induction false} InsertSorts(before: Order, order: seq<nat>, x: nat, n: nat)
    requires TotalOrder(before, n) && Sorted(before, order) && x < n && x !in order
    requires forall a :: 0 <= a < |order| ==> order[a] < n
    ensures Sorted(before, Insert(before, order, x))
  {
    if order != [] {
      var front, last := order[..|order| - 1], order[|order| - 1];
      assert last in order && last < n;
      if before(last, x) {
        forall a | 0 <= a < |order| ensures before(order[a], x) {
          assert a < |order| - 1 ==> before(order[a], last);
        }
      } else {
        InsertSorts(before, front, x, n);
        InsertKeeps(before, front, x);
        var r := Insert(before, front, x);
        forall a | 0 <= a < |r| ensures before(r[a], last) {
          assert r[a] in r;
          if r[a] != x {
            var b :| 0 <= b < |front| && front[b] == r[a];
            assert before(order[b], order[|order| - 1]);
          }
        }
      }
    }
  }

  lemma {:induction false} RankMembers(before: Order, n: nat)
    ensures Permutes(Rank(before, n), n)
  {
    if n > 0 {
      RankMembers(before, n - 1);
      InsertKeeps(before, Rank(before, n - 1), n - 1);
    }
  }

  lemma {:induction false} RankSorted(before: Order, m: nat, n: nat)
    requires m <= n && TotalOrder(before, n)
    ensures Sorted(before, Rank(before, m))
  {
    if m > 0 {
      var r := Rank(before, m - 1);
      RankSorted(before, m - 1, n);
      RankMembers(before, m - 1);
      forall a | 0 <= a < |r| ensures r[a] < n { assert r[a] in r; }
      InsertSorts(before, r, m - 1, n);
    }
  }

  /** Ranking gives the positions in order, each once. */
  lemma RankFacts(before: Order, n: nat)
    requires TotalOrder(before, n)
    ensures Permutes(Rank(before, n), n) && Sorted(before, Rank(before, n))
  {
    RankMembers(before, n);
    RankSorted(before, n, n);
  }

  /** The best `k` of a ranking are above everything left out. */
  lemma CutIsBest(before: Order, n: nat, order: seq<nat>, k: nat, a: nat, i: nat)
    requires Permutes(order, n) && Sorted(before, order) && k <= n && a < k
    requires i < n && forall b :: 0 <= b < k ==> order[b] != i
    ensures before(order[a], i)
  {
    assert i in order;
    var c :| 0 <= c < |order| && order[c] == i;
  }
}
