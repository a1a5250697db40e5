/** The greedy diversity filter over hypotheses, by embeddings and, when those fail, by tokens. */
module DiverseSelection {
  import opened Wrappers

  /** Candidate i is too similar to the selected candidate j. */
  type TooSimilar = (nat, nat) -> bool

  predicate Clashes(similar: TooSimilar, chosen: seq<nat>, i: nat) {
    exists a :: 0 <= a < |chosen| && similar(i, chosen[a])
  }

  /** The positions chosen among the first m candidates. */
  function Chosen(similar: TooSimilar, m: nat, n: int): seq<nat> {
    if m == 0 then []
    else
      var s := Chosen(similar, m - 1, n);
      if |s| >= n || Clashes(similar, s, m - 1) then s else s + [m - 1]
  }

  ghost predicate Increasing(s: seq<nat>, m: nat) {
    && (forall a, b :: 0 <= a < b < |s| ==> s[a] < s[b])
    && (forall a :: 0 <= a < |s| ==> s[a] < m)
  }

  lemma {:induction false} ChosenIncreases(similar: TooSimilar, m: nat, n: int)
    ensures Increasing(Chosen(similar, m, n), m)
  {
    if m > 0 { ChosenIncreases(similar, m - 1, n); }
  }

  /** The choice over fewer candidates is a prefix of the choice over more. */
  lemma {:induction false} ChosenPrefix(similar: TooSimilar, i: nat, m: nat, n: int)
    requires i <= m
    ensures Chosen(similar, i, n) <= Chosen(similar, m, n)
    ensures forall a :: |Chosen(similar, i, n)| <= a < |Chosen(similar, m, n)| ==> i <= Chosen(similar, m, n)[a]
    decreases m
  {
    if m > i { ChosenPrefix(similar, i, m - 1, n); }
  }

  /** Exactly which candidates are chosen: those reached before n are, and unlike every one chosen
      earlier. */
  lemma ChosenExactly(similar: TooSimilar, i: nat, m: nat, n: int)
    requires i < m
    ensures i in Chosen(similar, m, n) <==>
            |Chosen(similar, i, n)| < n && !Clashes(similar, Chosen(similar, i, n), i)
  {
    var s, all := Chosen(similar, i, n), Chosen(similar, m, n);
    ChosenPrefix(similar, i + 1, m, n);
    ChosenIncreases(similar, i, n);
    if |s| < n && !Clashes(similar, s, i) {
      assert all[|s|] == i;
    } else {
      forall a | 0 <= a < |all| ensures all[a] != i { if a < |s| { assert all[a] == s[a]; } }
    }
  }

  /** The choice keeps candidate order, takes at most n, has no two that are too similar, and unless
      n were taken every candidate left out is too similar to one chosen before it. */
  lemma ChosenIsDiverseAndMaximal(similar: TooSimilar, m: nat, n: int)
    ensures var s := Chosen(similar, m, n);
            && Increasing(s, m) && |s| <= (if n >= 0 then n else 0)
            && (forall a, b :: 0 <= a < b < |s| ==> !similar(s[b], s[a]))
            && (|s| < n ==> forall i: nat :: i < m && i !in s ==>
                  exists a :: 0 <= a < |s| && s[a] < i && similar(i, s[a]))
  {
    var s := Chosen(similar, m, n);
    ChosenIncreases(similar, m, n);
    ChosenSize(similar, m, n);
    forall a, b | 0 <= a < b < |s| ensures !similar(s[b], s[a]) {
      var before := Chosen(similar, s[b], n);
      ChosenExactly(similar, s[b], m, n);
      ChosenPrefix(similar, s[b], m, n);
      assert before[a] == s[a];
    }
    if |s| < n {
      forall i: nat | i < m && i !in s ensures exists a :: 0 <= a < |s| && s[a] < i && similar(i, s[a]) {
        var before := Chosen(similar, i, n);
        ChosenExactly(similar, i, m, n);
        ChosenPrefix(similar, i, m, n);
        ChosenIncreases(similar, i, n);
        var a :| 0 <= a < |before| && similar(i, before[a]);
        assert s[a] == before[a];
      }
    }
  }

  lemma {:induction false} ChosenSize(similar: TooSimilar, m: nat, n: int)
    ensures |Chosen(similar, m, n)| <= if n >= 0 then n else 0
  {
    if m > 0 { ChosenSize(similar, m - 1, n); }
  }

  /** At least one hypothesis survives when one is asked for. */
  lemma {:induction false} FirstIsChosen(similar: TooSimilar, m: nat, n: int)
    requires m > 0 && n > 0
    ensures |Chosen(similar, m, n)| > 0 && Chosen(similar, m, n)[0] == 0
  {
    if m > 1 {
      FirstIsChosen(similar, m - 1, n);
    } else {
      assert Chosen(similar, 0, n) == [];
    }
  }

  // ---------- the two filters ----------

  type Vector = seq<real>

  function CloseVectors(cosine: (Vector, Vector) -> real, vectors: seq<Vector>, minDistance: real): TooSimilar {
    (i: nat, j: nat) => i < |vectors| && j < |vectors| && cosine(vectors[i], vectors[j]) > 1.0 - minDistance
  }

  /** Shared tokens over all tokens; two empty sets count as unlike. */
  function Overlap(a: set<string>, b: set<string>): real {
    |a * b| as real / (if |a + b| > 1 then |a + b| else 1) as real
  }

  function CloseTokens(tokens: string -> set<string>, candidates: seq<string>, minDistance: real): TooSimilar {
    (i: nat, j: nat) =>
      i < |candidates| && j < |candidates| && Overlap(tokens(candidates[i]), tokens(candidates[j])) > 1.0 - minDistance
  }

  function Pick(candidates: seq<string>, chosen: seq<nat>): seq<string>
    requires forall a :: 0 <= a < |chosen| ==> chosen[a] < |candidates|
  {
    seq(|chosen|, a requires 0 <= a < |chosen| => candidates[chosen[a]])
  }

  method SelectByVectors(cosine: (Vector, Vector) -> real, vectors: seq<Vector>, minDistance: real, n: int)
    returns (selected: seq<nat>)
    ensures selected == Chosen(CloseVectors(cosine, vectors, minDistance), |vectors|, n)
  {
    selected := [];
    ghost var similar := CloseVectors(cosine, vectors, minDistance);
    var selectedVectors: seq<Vector> := [];
    var i: nat := 0;
    while i < |vectors| && |selected| < n
      invariant i <= |vectors| && selected == Chosen(similar, i, n)
      invariant |selectedVectors| == |selected|
      invariant forall a :: 0 <= a < |selected| ==>
                  selected[a] < |vectors| && selectedVectors[a] == vectors[selected[a]]
    {
      var clash := false;
      var a := 0;
      while a < |selectedVectors| && !clash
        invariant 0 <= a <= |selected| && (clash ==> Clashes(similar, selected, i))
        invariant !clash ==> forall b :: 0 <= b < a ==> !similar(i, selected[b])
      {
        assert similar(i, selected[a]) == (cosine(vectors[i], selectedVectors[a]) > 1.0 - minDistance);
        clash := cosine(vectors[i], selectedVectors[a]) > 1.0 - minDistance;
        a := a + 1;
      }
      if !clash {
        selected := selected + [i];
        selectedVectors := selectedVectors + [vectors[i]];
      }
      i := i + 1;
    }
    Full(similar, i, |vectors|, n);
  }

  /** Once n are chosen the rest of the candidates change nothing. */
  lemma {:induction false} Full(similar: TooSimilar, i: nat, m: nat, n: int)
    requires i <= m && (i < m ==> |Chosen(similar, i, n)| >= n)
    ensures Chosen(similar, m, n) == Chosen(similar, i, n)
    decreases m
  {
    if i < m { Full(similar, i, m - 1, n); }
  }

  predicate IsDuplicate(tokens: string -> set<string>, accepted: seq<string>, candidate: string, minDistance: real) {
    exists a :: 0 <= a < |accepted| && Overlap(tokens(candidate), tokens(accepted[a])) > 1.0 - minDistance
  }

  lemma DuplicateIsClash(tokens: string -> set<string>, candidates: seq<string>, accepted: seq<string>,
                         chosen: seq<nat>, minDistance: real, i: nat)
    requires i < |candidates| && |accepted| == |chosen|
    requires forall a :: 0 <= a < |chosen| ==> chosen[a] < |candidates| && accepted[a] == candidates[chosen[a]]
    ensures IsDuplicate(tokens, accepted, candidates[i], minDistance)
            <==> Clashes(CloseTokens(tokens, candidates, minDistance), chosen, i)
  {
    var similar := CloseTokens(tokens, candidates, minDistance);
    forall a | 0 <= a < |chosen|
      ensures similar(i, chosen[a]) == (Overlap(tokens(candidates[i]), tokens(accepted[a])) > 1.0 - minDistance)
    {
    }
  }

  method SelectByTokens(tokens: string -> set<string>, candidates: seq<string>, minDistance: real, n: int)
    returns (accepted: seq<string>)
    ensures var chosen := Chosen(CloseTokens(tokens, candidates, minDistance), |candidates|, n);
            && (forall a :: 0 <= a < |chosen| ==> chosen[a] < |candidates|)
            && accepted == Pick(candidates, chosen)
  {
    accepted := [];
    ghost var similar := CloseTokens(tokens, candidates, minDistance);
    ghost var chosen: seq<nat> := [];
    var i: nat := 0;
    while i < |candidates| && |accepted| < n
      invariant i <= |candidates| && chosen == Chosen(similar, i, n) && |accepted| == |chosen|
      invariant forall a :: 0 <= a < |chosen| ==> chosen[a] < |candidates| && accepted[a] == candidates[chosen[a]]
    {
      var duplicate := IsDuplicate(tokens, accepted, candidates[i], minDistance);
      DuplicateIsClash(tokens, candidates, accepted, chosen, minDistance, i);
      if !duplicate {
        accepted := accepted + [candidates[i]];
        chosen := chosen + [i];
      }
      i := i + 1;
    }
    Full(similar, i, |candidates|, n);
  }

  predicate InRange(chosen: seq<nat>, m: nat) { forall a :: 0 <= a < |chosen| ==> chosen[a] < m }

  /** The filter: by vectors when the embedding call gives them and every chosen position is a
      candidate, else by tokens. */
  method Diversify(cosine: (Vector, Vector) -> real, tokens: string -> set<string>,
                   candidates: seq<string>, vectors: Option<seq<Vector>>, minDistance: real, n: int)
    returns (r: seq<string>)
    ensures var byVectors :=
              if vectors.None? then []
              else Chosen(CloseVectors(cosine, vectors.value, minDistance), |vectors.value|, n);
            var byTokens := Chosen(CloseTokens(tokens, candidates, minDistance), |candidates|, n);
            && InRange(byTokens, |candidates|)
            && r == if vectors.Some? && InRange(byVectors, |candidates|) then Pick(candidates, byVectors)
                    else Pick(candidates, byTokens)
  {
    ChosenIncreases(CloseTokens(tokens, candidates, minDistance), |candidates|, n);
    if vectors.Some? {
      var chosen := SelectByVectors(cosine, vectors.value, minDistance, n);
      if InRange(chosen, |candidates|) { return Pick(candidates, chosen); }
    }
    r := SelectByTokens(tokens, candidates, minDistance, n);
  }

  // ---------- what the filters promise ----------

  /** By vectors: the chosen ones are pairwise at least the distance apart (one less the cosine), and when fewer than
      n were chosen, every one left out is nearer than that to one chosen before it. */
  lemma VectorsSpread(cosine: (Vector, Vector) -> real, vectors: seq<Vector>, minDistance: real, n: int)
    ensures var s := Chosen(CloseVectors(cosine, vectors, minDistance), |vectors|, n);
            && (forall a :: 0 <= a < |s| ==> s[a] < |vectors|)
            && (forall a, b :: 0 <= a < b < |s| ==> minDistance <= 1.0 - cosine(vectors[s[b]], vectors[s[a]]))
            && (|s| < n ==> forall i: nat :: i < |vectors| && i !in s ==>
                  exists a :: 0 <= a < |s| && s[a] < i && 1.0 - cosine(vectors[i], vectors[s[a]]) < minDistance)
  {
    var similar := CloseVectors(cosine, vectors, minDistance);
    var s := Chosen(similar, |vectors|, n);
    ChosenIsDiverseAndMaximal(similar, |vectors|, n);
    if |s| < n {
      forall i: nat | i < |vectors| && i !in s
        ensures exists a :: 0 <= a < |s| && s[a] < i && 1.0 - cosine(vectors[i], vectors[s[a]]) < minDistance
      {
        var a :| 0 <= a < |s| && s[a] < i && similar(i, s[a]);
      }
    }
  }

  lemma Quotient(a: real, b: real)
    requires b > 0.0
    ensures a / b * b == a && (a >= 0.0 ==> a / b >= 0.0) && (a <= b ==> a / b <= 1.0)
  {
    var q := a / b;
    assert q * b == a;
    if a <= b { AtMostOne(q, b); }
  }

  lemma AtMostOne(q: real, b: real)
    requires b > 0.0 && q * b <= b
    ensures q <= 1.0
  {
  }

  lemma Subset(a: set<string>, b: set<string>)
    requires a <= b
    ensures |a| <= |b| && (|a| == |b| ==> a == b)
  {
    assert b == a + (b - a);
  }

  lemma SameWhole(a: set<string>, b: set<string>)
    ensures |a * b| == |a + b| <==> a == b
  {
    Subset(a * b, a + b);
    if |a * b| == |a + b| {
      forall x ensures x in a <==> x in b { assert x in a * b <==> x in a + b; }
    } else {
      assert a == b ==> a * b == a + b;
    }
  }

  lemma NothingShared(a: set<string>, b: set<string>)
    ensures |a * b| == 0 <==> a !! b
  {
    if a !! b {
      assert a * b == {};
    } else {
      var x :| x in a && x in b;
      assert x in a * b;
    }
  }

  /** The overlap of two sets of tokens is the share of their tokens that is common to both: from 0, when none is,
      to 1, when they are the same and not empty. */
  lemma OverlapIs(a: set<string>, b: set<string>)
    ensures 0.0 <= Overlap(a, b) <= 1.0 && Overlap(a, b) * |a + b| as real == |a * b| as real
    ensures Overlap(a, b) == 0.0 <==> a !! b
    ensures Overlap(a, b) == 1.0 <==> a == b != {}
  {
    Subset(a * b, a + b);
    SameWhole(a, b);
    NothingShared(a, b);
    if |a + b| == 0 {
      assert a + b == {} && a == {};
    } else {
      Quotient(|a * b| as real, |a + b| as real);
      assert a != {} || b != {};
    }
  }

  /** By tokens: the same with one less the overlap as distance. */
  lemma TokensSpread(tokens: string -> set<string>, candidates: seq<string>, minDistance: real, n: int)
    ensures var s := Chosen(CloseTokens(tokens, candidates, minDistance), |candidates|, n);
            && (forall a :: 0 <= a < |s| ==> s[a] < |candidates|)
            && (forall a, b :: 0 <= a < b < |s| ==>
                  minDistance <= 1.0 - Overlap(tokens(candidates[s[b]]), tokens(candidates[s[a]])))
            && (|s| < n ==> forall i: nat :: i < |candidates| && i !in s ==>
                  exists a :: 0 <= a < |s| && s[a] < i
                           && 1.0 - Overlap(tokens(candidates[i]), tokens(candidates[s[a]])) < minDistance)
  {
    var similar := CloseTokens(tokens, candidates, minDistance);
    var s := Chosen(similar, |candidates|, n);
    ChosenIsDiverseAndMaximal(similar, |candidates|, n);
    if |s| < n {
      forall i: nat | i < |candidates| && i !in s
        ensures exists a :: 0 <= a < |s| && s[a] < i
                         && 1.0 - Overlap(tokens(candidates[i]), tokens(candidates[s[a]])) < minDistance
      {
        var a :| 0 <= a < |s| && s[a] < i && similar(i, s[a]);
      }
    }
  }
}
