/** What the BM25 score means, told as comparisons: rarer tokens and further occurrences count for more,
    longer documents for less, and a query's tokens add up. */
module LexicalLaws {
  import opened Wrappers
  import opened LexicalSearch

  ghost predicate Increasing(log: Log) { forall x, y :: 0.0 < x < y ==> log(x) < log(y) }

  lemma Cancel(q: real, r: real, b: real)
    requires b > 0.0 && q * b < r * b
    ensures q < r
  {
  }

  lemma SmallerQuotient(a: real, b: real, c: real, d: real)
    requires a >= 0.0 && d > 0.0 && a <= c && d <= b && (a < c || (a > 0.0 && d < b))
    ensures a / b < c / d
  {
    var q, r := a / b, c / d;
    assert q * b == a && r * d == c;
    assert r * b >= r * d;
    Cancel(q, r, b);
  }

  /** The rarer of two tokens weighs more, in a corpus of any size. */
  lemma RarerWeighsMore(log: Log, n: nat, rare: nat, common: nat)
    requires Increasing(log) && rare < common <= n
    ensures Idf(log, n, rare) > Idf(log, n, common) > log(1.0)
  {
    var a, b := n as real - common as real + 0.5, n as real - rare as real + 0.5;
    SmallerQuotient(a, common as real + 0.5, b, rare as real + 0.5);
    assert a / (common as real + 0.5) > 0.0;
  }

  /** A token in exactly half of the documents weighs log 2. */
  lemma HalfWeighsLogTwo(log: Log, n: nat)
    ensures Idf(log, 2 * n, n) == log(2.0)
  {
    assert (n as real + 0.5) / (n as real + 0.5) == 1.0;
    assert (2 * n) as real - n as real + 0.5 == n as real + 0.5;
  }

  /** The floor of the denominator is never reached: the saturation is the plain quotient. */
  lemma SaturationIs(tf: nat, length: nat, average: real)
    requires average >= 0.0
    ensures var norm := length as real / if average < 1.0 then 1.0 else average;
            && norm >= 0.0
            && Saturated(tf, length, average) == (tf as real * 2.5) / (tf as real + 0.375 + 1.125 * norm)
  {
    var norm := length as real / if average < 1.0 then 1.0 else average;
    assert norm >= 0.0;
    assert K1 * (1.0 - B + B * norm) == 0.375 + 1.125 * norm;
  }

  /** Another occurrence counts for more, but never for more than two and a half occurrences of nothing. */
  lemma MoreOccurrences(tf: nat, length: nat, average: real)
    requires average >= 0.0
    ensures Saturated(tf, length, average) < Saturated(tf + 1, length, average) < 2.5
    ensures Saturated(0, length, average) == 0.0
  {
    var norm := length as real / if average < 1.0 then 1.0 else average;
    SaturationIs(tf, length, average);
    SaturationIs(tf + 1, length, average);
    SaturationIs(0, length, average);
    Saturates(tf as real, 0.375 + 1.125 * norm);
  }

  lemma Saturates(x: real, c: real)
    requires x >= 0.0 && c > 0.0
    ensures x * 2.5 / (x + c) < (x + 1.0) * 2.5 / (x + 1.0 + c) < 2.5
  {
    assert x * 2.5 / (x + c) == 2.5 - c * 2.5 / (x + c) by { Complement(x, c); }
    assert (x + 1.0) * 2.5 / (x + 1.0 + c) == 2.5 - c * 2.5 / (x + 1.0 + c) by { Complement(x + 1.0, c); }
    SmallerQuotient(c * 2.5, x + 1.0 + c, c * 2.5, x + c);
    assert c * 2.5 / (x + 1.0 + c) > 0.0;
  }

  lemma Complement(x: real, c: real)
    requires x >= 0.0 && c > 0.0
    ensures x * 2.5 / (x + c) == 2.5 - c * 2.5 / (x + c)
  {
    var d, p, q := x + c, x * 2.5 / (x + c), c * 2.5 / (x + c);
    assert p * d == x * 2.5 && q * d == c * 2.5;
    Distribute(p, q, d);
    Distribute(x, c, 2.5);
    SameFactor(p + q, 2.5, d);
  }

  lemma Distribute(p: real, q: real, d: real)
    ensures (p + q) * d == p * d + q * d
  {
  }

  lemma SameFactor(p: real, q: real, d: real)
    requires d > 0.0 && p * d == q * d
    ensures p == q
  {
    if p < q { Cancel(q, p, d); } else if q < p { Cancel(p, q, d); }
  }

  /** The same occurrences count for less in a longer document. */
  lemma LongerCountsLess(tf: nat, short: nat, long: nat, average: real)
    requires tf >= 1 && short < long && average >= 0.0
    ensures Saturated(tf, long, average) < Saturated(tf, short, average)
  {
    var base := if average < 1.0 then 1.0 else average;
    SaturationIs(tf, long, average);
    SaturationIs(tf, short, average);
    SmallerQuotient(short as real, base, long as real, base);
    SmallerQuotient(tf as real * 2.5, tf as real + 0.375 + 1.125 * (long as real / base),
                    tf as real * 2.5, tf as real + 0.375 + 1.125 * (short as real / base));
  }

  /** The score of a query is the sum of its parts. */
  lemma {:induction false} ScoreAdds(log: Log, corpus: seq<seq<Token>>, doc: seq<Token>, a: seq<Token>, b: seq<Token>)
    ensures Score(log, corpus, doc, a + b) == Score(log, corpus, doc, a) + Score(log, corpus, doc, b)
  {
    if b == [] {
      assert a + b == a;
    } else {
      ScoreAdds(log, corpus, doc, a, b[..|b| - 1]);
      assert (a + b)[..|a + b| - 1] == a + b[..|b| - 1];
    }
  }

  lemma ScoreOne(log: Log, corpus: seq<seq<Token>>, doc: seq<Token>, t: Token)
    ensures Score(log, corpus, doc, [t]) == Weight(log, corpus, doc, t)
  {
    assert [t][..0] == [];
    assert Score(log, corpus, doc, []) == 0.0;
  }

  /** What one token adds: its idf times its saturation, and so nothing when it does not occur. */
  lemma WeightIs(log: Log, corpus: seq<seq<Token>>, doc: seq<Token>, t: Token)
    ensures t !in doc ==> Weight(log, corpus, doc, t) == 0.0
    ensures t in doc ==>
              Weight(log, corpus, doc, t) ==
              Idf(log, DocCount(corpus), Containing(corpus, t)) * Saturated(Count(doc, t), |doc|, AverageLength(corpus))
  {
    CountPositive(doc, t);
  }

  lemma Divides(a: real, n: real)
    requires n > 0.0
    ensures a / n * n == a
  {
  }

  /** The mean length of the documents; an empty corpus counts as one document. */
  lemma AverageIs(corpus: seq<seq<Token>>)
    ensures AverageLength(corpus) * DocCount(corpus) as real == TotalLength(corpus) as real
  {
    Divides(TotalLength(corpus) as real, DocCount(corpus) as real);
  }

  lemma DocCountIs(corpus: seq<seq<Token>>)
    ensures DocCount(corpus) == if corpus == [] then 1 else |corpus|
  {
  }

  lemma {:induction false} CountIs(doc: seq<Token>, t: Token)
    ensures Count(doc, t) == multiset(doc)[t]
  {
    if doc != [] {
      CountIs(doc[..|doc| - 1], t);
      assert doc == doc[..|doc| - 1] + [doc[|doc| - 1]];
    }
  }

  /** The document frequency is the number of positions whose document has the token, and the total
      length the length of all documents put together. */
  lemma {:induction false} ContainingIs(corpus: seq<seq<Token>>, t: Token)
    ensures Containing(corpus, t) == |set i | 0 <= i < |corpus| && t in corpus[i]|
  {
    if corpus != [] {
      var front, n := corpus[..|corpus| - 1], |corpus| - 1;
      ContainingIs(front, t);
      var here, before := set i | 0 <= i < |corpus| && t in corpus[i], set i | 0 <= i < |front| && t in front[i];
      assert here == if t in corpus[n] then before + {n} else before;
    }
  }

  ghost function Joined(corpus: seq<seq<Token>>): seq<Token> {
    if corpus == [] then [] else corpus[0] + Joined(corpus[1..])
  }

  lemma {:induction false} TotalIs(corpus: seq<seq<Token>>)
    ensures TotalLength(corpus) == |Joined(corpus)|
  {
    if corpus != [] {
      TotalIs(corpus[1..]);
      TotalHead(corpus);
    }
  }

  lemma {:induction false} TotalHead(corpus: seq<seq<Token>>)
    requires corpus != []
    ensures TotalLength(corpus) == |corpus[0]| + TotalLength(corpus[1..])
  {
    if |corpus| > 1 {
      TotalHead(corpus[..|corpus| - 1]);
      assert corpus[..|corpus| - 1][1..] == corpus[1..][..|corpus| - 2];
    } else {
      assert corpus[..0] == [] && corpus[1..] == [];
    }
  }
}
