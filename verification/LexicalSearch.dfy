/** BM25 lexical search with the fallback scorer, over documents that are already tokenised.
    Numbers are real; the logarithm is a function that is positive above one. */
module LexicalSearch {
  import opened Wrappers
  import Ranking

  type Token = string

  // ---------- counting ----------

  function Count(doc: seq<Token>, t: Token): nat {
    if doc == [] then 0 else Count(doc[..|doc| - 1], t) + if doc[|doc| - 1] == t then 1 else 0
  }

  lemma {:induction false} CountPositive(doc: seq<Token>, t: Token)
    ensures Count(doc, t) > 0 <==> t in doc
  {
    if doc != [] {
      CountPositive(doc[..|doc| - 1], t);
      assert doc == doc[..|doc| - 1] + [doc[|doc| - 1]];
    }
  }

  /** How many documents contain a token. */
  function Containing(corpus: seq<seq<Token>>, t: Token): nat {
    if corpus == [] then 0
    else Containing(corpus[..|corpus| - 1], t) + if t in corpus[|corpus| - 1] then 1 else 0
  }

  lemma {:induction false} ContainingBound(corpus: seq<seq<Token>>, t: Token)
    ensures Containing(corpus, t) <= |corpus|
  {
    if corpus != [] { ContainingBound(corpus[..|corpus| - 1], t); }
  }

  function TotalLength(corpus: seq<seq<Token>>): nat {
    if corpus == [] then 0 else TotalLength(corpus[..|corpus| - 1]) + |corpus[|corpus| - 1]|
  }

  // ---------- the score ----------

  const K1 := 1.5
  const B := 0.75

  type Log = real -> real

  ghost predicate PositiveAboveOne(log: Log) { forall x :: x > 1.0 ==> log(x) > 0.0 }

  function RealMax(a: real, b: real): real { if a >= b then a else b }

  function DocCount(corpus: seq<seq<Token>>): nat { if |corpus| > 1 then |corpus| else 1 }

  function AverageLength(corpus: seq<seq<Token>>): real { TotalLength(corpus) as real / DocCount(corpus) as real }

  function Idf(log: Log, n: nat, df: nat): real {
    log(1.0 + (n as real - df as real + 0.5) / (df as real + 0.5))
  }

  function SaturationBase(tf: nat, length: nat, average: real): (r: real)
    ensures r > 0.0
  {
    RealMax(0.000000001, tf as real + K1 * (1.0 - B + B * (length as real / RealMax(1.0, average))))
  }

  function Saturated(tf: nat, length: nat, average: real): real {
    (tf as real * (K1 + 1.0)) / SaturationBase(tf, length, average)
  }

  function Weight(log: Log, corpus: seq<seq<Token>>, doc: seq<Token>, t: Token): real {
    if Count(doc, t) == 0 then 0.0
    else Idf(log, DocCount(corpus), Containing(corpus, t)) * Saturated(Count(doc, t), |doc|, AverageLength(corpus))
  }

  /** A query token adds its weight each time it occurs in the query. */
  function Score(log: Log, corpus: seq<seq<Token>>, doc: seq<Token>, query: seq<Token>): real {
    if query == [] then 0.0
    else Score(log, corpus, doc, query[..|query| - 1]) + Weight(log, corpus, doc, query[|query| - 1])
  }

  lemma Quotient(a: real, b: real)
    requires a > 0.0 && b > 0.0
    ensures a / b > 0.0
  {
  }

  /** No token is too common to count: every idf is positive, even for a token in every document. */
  lemma IdfPositive(log: Log, corpus: seq<seq<Token>>, t: Token)
    requires PositiveAboveOne(log)
    ensures Idf(log, DocCount(corpus), Containing(corpus, t)) > 0.0
  {
    ContainingBound(corpus, t);
    var n, df := DocCount(corpus), Containing(corpus, t);
    Quotient(n as real - df as real + 0.5, df as real + 0.5);
  }

  lemma WeightSign(log: Log, corpus: seq<seq<Token>>, doc: seq<Token>, t: Token)
    requires PositiveAboveOne(log)
    ensures if t in doc then Weight(log, corpus, doc, t) > 0.0 else Weight(log, corpus, doc, t) == 0.0
  {
    CountPositive(doc, t);
    if t in doc {
      var tf := Count(doc, t);
      IdfPositive(log, corpus, t);
      Quotient(tf as real * (K1 + 1.0), SaturationBase(tf, |doc|, AverageLength(corpus)));
    }
  }

  ghost predicate Shares(doc: seq<Token>, query: seq<Token>) { exists i :: 0 <= i < |query| && query[i] in doc }

  /** A document scores above zero exactly when it contains a token of the query, and never below. */
  lemma {:induction false} PositiveExactlyWhenShared(log: Log, corpus: seq<seq<Token>>, doc: seq<Token>,
                                                     query: seq<Token>)
    requires PositiveAboveOne(log)
    ensures Score(log, corpus, doc, query) >= 0.0
    ensures Score(log, corpus, doc, query) > 0.0 <==> Shares(doc, query)
  {
    if query != [] {
      var front, last := query[..|query| - 1], query[|query| - 1];
      PositiveExactlyWhenShared(log, corpus, doc, front);
      WeightSign(log, corpus, doc, last);
      if Shares(doc, front) { var i :| 0 <= i < |front| && front[i] in doc; assert query[i] in doc; }
      if Shares(doc, query) && last !in doc { var i :| 0 <= i < |query| && query[i] in doc; assert front[i] in doc; }
    }
  }

  // ---------- the index ----------

  function Get(m: map<Token, nat>, t: Token): nat { if t in m then m[t] else 0 }

  ghost predicate CountsDocuments(freqs: map<Token, nat>, corpus: seq<seq<Token>>) {
    forall t :: Get(freqs, t) == Containing(corpus, t)
  }

  /** Adding one document's distinct tokens, in whatever order the set is walked. */
  method AddDocument(freqs: map<Token, nat>, doc: seq<Token>) returns (r: map<Token, nat>)
    ensures forall t :: Get(r, t) == Get(freqs, t) + if t in doc then 1 else 0
  {
    r := freqs;
    var seen := set i | 0 <= i < |doc| :: doc[i];
    ghost var all := seen;
    while seen != {}
      invariant seen <= all
      invariant forall t :: Get(r, t) == Get(freqs, t) + if t in all && t !in seen then 1 else 0
      decreases |seen|
    {
      var t :| t in seen;
      seen := seen - {t};
      r := r[t := Get(r, t) + 1];
    }
    assert forall t :: t in all <==> t in doc;
  }

  method CountFrequencies(corpus: seq<seq<Token>>) returns (freqs: map<Token, nat>)
    ensures CountsDocuments(freqs, corpus)
  {
    freqs := map[];
    for i := 0 to |corpus|
      invariant CountsDocuments(freqs, corpus[..i])
    {
      assert corpus[..i + 1][..i] == corpus[..i];
      freqs := AddDocument(freqs, corpus[i]);
    }
    assert corpus[..|corpus|] == corpus;
  }

  method TotalTokens(corpus: seq<seq<Token>>) returns (n: nat)
    ensures n == TotalLength(corpus)
  {
    n := 0;
    for i := 0 to |corpus|
      invariant n == TotalLength(corpus[..i])
    {
      assert corpus[..i + 1][..i] == corpus[..i];
      n := n + |corpus[i]|;
    }
    assert corpus[..|corpus|] == corpus;
  }

  // ---------- cutting the ranking ----------

  /** The stable ascending sort: lower score first, equal scores in document order. */
  function Ascending(scores: seq<real>): Ranking.Order {
    (i: nat, j: nat) => i < |scores| && j < |scores| && (scores[i] < scores[j] || (scores[i] == scores[j] && i < j))
  }

  lemma AscendingIsTotal(scores: seq<real>)
    ensures Ranking.TotalOrder(Ascending(scores), |scores|)
  {
  }

  /** Where the slice [-topK:] of n items starts. */
  function SliceStart(n: nat, topK: int): (r: nat)
    ensures r <= n
  {
    if topK <= 0 then (if -topK < n then -topK else n) else if topK < n then n - topK else 0
  }

  function Reversed<T>(s: seq<T>): seq<T> { seq(|s|, i requires 0 <= i < |s| => s[|s| - 1 - i]) }

  function Argsort(scores: seq<real>): (r: seq<nat>)
    ensures |r| == |scores|
  {
    Ranking.RankLength(Ascending(scores), |scores|);
    Ranking.Rank(Ascending(scores), |scores|)
  }

  function TopIndices(scores: seq<real>, topK: int): seq<nat> {
    Reversed(Argsort(scores)[SliceStart(|scores|, topK)..])
  }

  /** The best `k` positions come first, higher scores earlier, later documents first among equals;
      nothing left out outranks anything kept. */
  lemma TopIndicesFacts(scores: seq<real>, topK: int)
    ensures var r, kept := TopIndices(scores, topK), |scores| - SliceStart(|scores|, topK);
            && |r| == kept
            && (forall a :: 0 <= a < |r| ==> r[a] < |scores|)
            && (forall a, b :: 0 <= a < b < |r| ==> Ascending(scores)(r[b], r[a]))
            && (forall a, i: nat :: 0 <= a < |r| && i < |scores| && i !in r ==> Ascending(scores)(i, r[a]))
  {
    var before, n := Ascending(scores), |scores|;
    AscendingIsTotal(scores);
    Ranking.RankFacts(before, n);
    var order, start, r := Argsort(scores), SliceStart(n, topK), TopIndices(scores, topK);
    assert forall a :: 0 <= a < |r| ==> r[a] == order[n - 1 - a];
    forall a | 0 <= a < |r| ensures r[a] < n { assert order[n - 1 - a] in order; }
    forall d | start <= d < n ensures order[d] in r { assert r[n - 1 - d] == order[d]; }
    forall a, i: nat | 0 <= a < |r| && i < n && i !in r ensures before(i, r[a]) {
      assert i in order;
      var c :| 0 <= c < n && order[c] == i;
    }
  }

  /** Only documents with a positive score are returned. */
  function Positive(scores: seq<real>, picked: seq<nat>): (r: seq<nat>)
    requires forall a :: 0 <= a < |picked| ==> picked[a] < |scores|
    ensures forall a :: 0 <= a < |r| ==> r[a] < |scores| && scores[r[a]] > 0.0
  {
    if picked == [] then []
    else
      var last := picked[|picked| - 1];
      Positive(scores, picked[..|picked| - 1]) + if scores[last] > 0.0 then [last] else []
  }

  ghost predicate PositivePrefix(scores: seq<real>, picked: seq<nat>, p: nat)
    requires forall a :: 0 <= a < |picked| ==> picked[a] < |scores|
  {
    && p <= |picked| && Positive(scores, picked) == picked[..p]
    && (p < |picked| ==> scores[picked[p]] <= 0.0)
    && forall a :: 0 <= a < |picked| ==> (a < p <==> scores[picked[a]] > 0.0)
  }

  lemma PrefixStep(scores: seq<real>, front: seq<nat>, last: nat, p: nat)
    requires last < |scores| && forall a :: 0 <= a < |front| ==> front[a] < |scores| && scores[last] <= scores[front[a]]
    requires PositivePrefix(scores, front, p)
    ensures PositivePrefix(scores, front + [last], if scores[last] > 0.0 then p + 1 else p)
  {
    assert (front + [last])[..|front|] == front;
    if scores[last] > 0.0 {
      assert (front + [last])[..p + 1] == front + [last];
    } else {
      assert (front + [last])[..p] == front[..p];
    }
  }

  /** Results come best first, so keeping the positive ones keeps a prefix. */
  lemma {:induction false} PositiveIsPrefix(scores: seq<real>, picked: seq<nat>) returns (p: nat)
    requires forall a :: 0 <= a < |picked| ==> picked[a] < |scores|
    requires forall a, b :: 0 <= a < b < |picked| ==> scores[picked[b]] <= scores[picked[a]]
    ensures PositivePrefix(scores, picked, p)
  {
    p := 0;
    if picked != [] {
      var front, last := picked[..|picked| - 1], picked[|picked| - 1];
      p := PositiveIsPrefix(scores, front);
      PrefixStep(scores, front, last, p);
      assert front + [last] == picked;
      p := if scores[last] > 0.0 then p + 1 else p;
    }
  }

  function Found(scores: seq<real>, topK: int): (r: seq<nat>)
    ensures forall a :: 0 <= a < |r| ==> r[a] < |scores|
  {
    TopIndicesFacts(scores, topK);
    Positive(scores, TopIndices(scores, topK))
  }

  /** How many results the slice [-topK:] of n items keeps: topK of them when topK >= 1, everything
      for 0, and all but the first -topK of the ascending order for a negative topK. */
  function Kept(n: nat, topK: int): (r: nat)
    ensures r <= n
    ensures topK >= 1 ==> r <= topK
    ensures topK == 0 ==> r == n
  {
    n - SliceStart(n, topK)
  }

  /** What a search finds, for any topK: documents of positive score, best first, as many as the
      slice allows; a positive document is left out only when that many others score no lower. */
  lemma SearchFindsBest(scores: seq<real>, topK: int)
    ensures var r := Found(scores, topK);
            && |r| <= Kept(|scores|, topK)
            && (forall a :: 0 <= a < |r| ==> r[a] < |scores| && scores[r[a]] > 0.0)
            && (forall a, b :: 0 <= a < b < |r| ==> r[a] != r[b] && scores[r[b]] <= scores[r[a]])
            && (forall i: nat :: i < |scores| && scores[i] > 0.0 && i !in r ==>
                  |r| == Kept(|scores|, topK) && forall a :: 0 <= a < |r| ==> scores[i] <= scores[r[a]])
  {
    var top := TopIndices(scores, topK);
    TopIndicesFacts(scores, topK);
    var p := PositiveIsPrefix(scores, top);
    var r := Found(scores, topK);
    forall i: nat | i < |scores| && scores[i] > 0.0 && i !in r
      ensures |r| == Kept(|scores|, topK) && forall a :: 0 <= a < |r| ==> scores[i] <= scores[r[a]]
    {
      forall a | 0 <= a < |top| && scores[top[a]] > 0.0 ensures top[a] in r { assert r[a] == top[a]; }
      assert i !in top;
      forall a | 0 <= a < |top| ensures scores[top[a]] >= scores[i] { assert Ascending(scores)(i, top[a]); }
    }
  }

  /** For which topK a search keeps the bound it is asked for: at most topK results for every
      topK >= 1; for 0 only when nothing matches; never for a negative topK. */
  lemma TopKIsABound(scores: seq<real>, topK: int)
    ensures |Found(scores, topK)| <= topK <==>
              topK >= 1 || (topK == 0 && forall i :: 0 <= i < |scores| ==> scores[i] <= 0.0)
  {
    SearchFindsBest(scores, topK);
    if topK == 0 {
      if i :| 0 <= i < |scores| && scores[i] > 0.0 { ZeroMeansAll(scores, i); }
      if Found(scores, 0) != [] { assert scores[Found(scores, 0)[0]] > 0.0; }
    }
  }

  lemma EverythingKept(scores: seq<real>, topK: int, i: nat)
    requires i < |scores| && |TopIndices(scores, topK)| == |scores|
    ensures i in TopIndices(scores, topK)
  {
    AscendingIsTotal(scores);
    Ranking.RankFacts(Ascending(scores), |scores|);
    var order, r := Argsort(scores), TopIndices(scores, topK);
    assert i in order;
    var c :| 0 <= c < |order| && order[c] == i;
    assert SliceStart(|scores|, topK) == 0;
    assert r[|scores| - 1 - c] == order[c];
  }

  /** Asking for zero results gives every matching document: the slice [-0:] is everything. */
  lemma ZeroMeansAll(scores: seq<real>, i: nat)
    requires i < |scores|
    ensures i in Found(scores, 0) <==> scores[i] > 0.0
  {
    TopIndicesFacts(scores, 0);
    EverythingKept(scores, 0, i);
    var top := TopIndices(scores, 0);
    var p := PositiveIsPrefix(scores, top);
    var a :| 0 <= a < |top| && top[a] == i;
    if scores[i] > 0.0 { assert Found(scores, 0)[a] == i; }
  }

  // ---------- the search ----------

  datatype DocId = Named(name: string) | Numbered(index: nat)

  datatype Hit = Hit(id: DocId, score: real, text: string)

  datatype Error = IndexError

  function AllScores(log: Log, corpus: seq<seq<Token>>, query: seq<Token>): seq<real> {
    seq(|corpus|, i requires 0 <= i < |corpus| => Score(log, corpus, corpus[i], query))
  }

  /** Exactly the documents sharing a token with the query can be found, and one that does is left
      out only for as many as the slice keeps that score no lower. */
  lemma SearchFindsSharing(log: Log, corpus: seq<seq<Token>>, query: seq<Token>, topK: int, i: nat)
    requires PositiveAboveOne(log) && i < |corpus|
    ensures var scores := AllScores(log, corpus, query);
            var r := Found(scores, topK);
            && (i in r ==> Shares(corpus[i], query))
            && (Shares(corpus[i], query) && i !in r ==>
                  && |r| == Kept(|corpus|, topK)
                  && forall a :: 0 <= a < |r| ==> r[a] < |corpus| && scores[i] <= scores[r[a]])
  {
    SearchFindsBest(AllScores(log, corpus, query), topK);
    PositiveExactlyWhenShared(log, corpus, corpus[i], query);
  }

  function HitsAt(ids: seq<DocId>, texts: seq<string>, scores: seq<real>, picked: seq<nat>): Result<seq<Hit>, Error>
    requires |texts| == |scores| && forall a :: 0 <= a < |picked| ==> picked[a] < |scores|
  {
    if exists a :: 0 <= a < |picked| && picked[a] >= |ids| then Err(IndexError)
    else Ok(seq(|picked|, a requires 0 <= a < |picked| && picked[a] < |ids| =>
                            Hit(ids[picked[a]], scores[picked[a]], texts[picked[a]])))
  }

  class BM25Index {
    const log: Log
    const tokenize: string -> seq<Token>
    var documents: seq<string>
    var docIds: seq<DocId>
    var corpus: Option<seq<seq<Token>>>
    var docFreqs: map<Token, nat>

    function Tokens(texts: seq<string>): seq<seq<Token>> {
      seq(|texts|, i requires 0 <= i < |texts| => tokenize(texts[i]))
    }

    ghost predicate Valid() reads this {
      corpus.Some? ==> corpus.value == Tokens(documents) && CountsDocuments(docFreqs, corpus.value)
    }

    constructor (log: Log, tokenize: string -> seq<Token>)
      ensures Valid() && corpus == None && this.log == log && this.tokenize == tokenize
    {
      this.log, this.tokenize := log, tokenize;
      documents, docIds, corpus, docFreqs := [], [], None, map[];
    }

    /** Indexing nothing leaves the index as it was; otherwise the new documents replace the old.
        Missing or empty ids become positions. */
    method AddDocuments(texts: seq<string>, ids: Option<seq<string>>) returns (n: nat)
      requires Valid()
      modifies this
      ensures Valid() && n == |texts|
      ensures texts == [] ==> documents == old(documents) && docIds == old(docIds)
      ensures texts == [] ==> corpus == old(corpus) && docFreqs == old(docFreqs)
      ensures texts != [] ==> documents == texts && corpus == Some(Tokens(texts))
      ensures texts != [] ==>
                docIds == if ids.None? || ids.value == [] then seq(|texts|, i requires 0 <= i < |texts| => Numbered(i))
                          else seq(|ids.value|, i requires 0 <= i < |ids.value| => Named(ids.value[i]))
    {
      n := |texts|;
      if texts == [] { return; }
      documents := texts;
      docIds := if ids.None? || ids.value == [] then seq(|texts|, i requires 0 <= i < |texts| => Numbered(i))
                else seq(|ids.value|, i requires 0 <= i < |ids.value| => Named(ids.value[i]));
      corpus := Some(Tokens(texts));
      docFreqs := CountFrequencies(corpus.value);
    }

    method Clear()
      modifies this
      ensures Valid() && corpus == None && documents == [] && docIds == []
    {
      documents, docIds, corpus := [], [], None;
    }

    method ScoreDocument(docs: seq<seq<Token>>, doc: seq<Token>, average: real, query: seq<Token>) returns (score: real)
      requires CountsDocuments(docFreqs, docs) && average == AverageLength(docs)
      ensures score == Score(log, docs, doc, query)
    {
      score := 0.0;
      for j := 0 to |query|
        invariant score == Score(log, docs, doc, query[..j])
      {
        assert query[..j + 1][..j] == query[..j];
        var tf := Count(doc, query[j]);
        if tf == 0 { continue; }
        var idf := Idf(log, DocCount(docs), Get(docFreqs, query[j]));
        score := score + idf * Saturated(tf, |doc|, average);
      }
      assert query[..|query|] == query;
    }

    method GetScores(docs: seq<seq<Token>>, query: seq<Token>) returns (scores: seq<real>)
      requires CountsDocuments(docFreqs, docs)
      ensures scores == AllScores(log, docs, query)
    {
      scores := [];
      var total := TotalTokens(docs);
      var average := total as real / DocCount(docs) as real;
      for i := 0 to |docs|
        invariant scores == AllScores(log, docs, query)[..i]
      {
        var score := ScoreDocument(docs, docs[i], average, query);
        scores := scores + [score];
      }
    }

    method Collect(scores: seq<real>, top: seq<nat>) returns (r: Result<seq<Hit>, Error>)
      requires |documents| == |scores| && forall a :: 0 <= a < |top| ==> top[a] < |scores|
      ensures r == HitsAt(docIds, documents, scores, Positive(scores, top))
    {
      var hits: seq<Hit> := [];
      ghost var picked: seq<nat> := [];
      for a := 0 to |top|
        invariant picked == Positive(scores, top[..a])
        invariant forall b :: 0 <= b < |picked| ==> picked[b] < |scores| && picked[b] < |docIds|
        invariant |hits| == |picked|
        invariant forall b :: 0 <= b < |picked| ==>
                    hits[b] == Hit(docIds[picked[b]], scores[picked[b]], documents[picked[b]])
      {
        assert top[..a + 1][..a] == top[..a];
        if scores[top[a]] > 0.0 {
          if top[a] >= |docIds| {
            PositiveKeeps(scores, top, a);
            return Err(IndexError);
          }
          hits := hits + [Hit(docIds[top[a]], scores[top[a]], documents[top[a]])];
          picked := picked + [top[a]];
        }
      }
      assert top[..|top|] == top;
      assert hits == HitsAt(docIds, documents, scores, picked).value;
      r := Ok(hits);
    }

    /** The error is a positive document beyond the given ids. */
    method Search(query: string, topK: int) returns (r: Result<seq<Hit>, Error>)
      requires Valid()
      ensures corpus.None? || tokenize(query) == [] ==> r == Ok([])
      ensures corpus.Some? && tokenize(query) != [] ==>
                var scores := AllScores(log, corpus.value, tokenize(query));
                r == HitsAt(docIds, documents, scores, Found(scores, topK))
    {
      if corpus.None? { return Ok([]); }
      var tokens := tokenize(query);
      if tokens == [] { return Ok([]); }
      var scores := GetScores(corpus.value, tokens);
      TopIndicesFacts(scores, topK);
      r := Collect(scores, TopIndices(scores, topK));
    }
  }

  lemma {:induction false} PositiveKeeps(scores: seq<real>, picked: seq<nat>, a: nat)
    requires forall b :: 0 <= b < |picked| ==> picked[b] < |scores|
    requires a < |picked| && scores[picked[a]] > 0.0
    ensures exists c :: 0 <= c < |Positive(scores, picked)| && Positive(scores, picked)[c] == picked[a]
  {
    var front := picked[..|picked| - 1];
    var r, before := Positive(scores, picked), Positive(scores, front);
    assert before <= r;
    if a < |front| {
      PositiveKeeps(scores, front, a);
      var c :| 0 <= c < |before| && before[c] == picked[a];
      assert r[c] == picked[a];
    } else {
      assert r[|r| - 1] == picked[a];
    }
  }
}
