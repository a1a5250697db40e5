/** Where the spans of a document come from, and how much of a chunk the next one repeats, told stretch by
    stretch and span by span. */
module ChunkSpans {
  import opened Strings
  import opened Wrappers
  import opened Chunking

  /** The stretch of text before break j, or after the last one. */
  ghost function From(breaks: seq<Span>, j: nat): nat
    requires j <= |breaks|
  {
    if j == 0 then 0 else breaks[j - 1].end
  }

  ghost function To(text: string, breaks: seq<Span>, j: nat): nat
    requires j <= |breaks|
  {
    if j < |breaks| then breaks[j].start else |text|
  }

  lemma StretchesFit(text: string, breaks: seq<Span>, j: nat)
    requires BreaksIn(text, breaks) && j <= |breaks|
    ensures From(breaks, j) <= To(text, breaks, j) <= |text|
  {
    if j > 0 { assert breaks[j - 1].In(text); }
    if j < |breaks| { assert breaks[j].In(text); }
  }

  /** The span is the trimmed stretch j. */
  ghost predicate IsStretch(text: string, breaks: seq<Span>, j: nat, span: Span)
    requires BreaksIn(text, breaks)
  {
    j <= |breaks| && TrimOf(text, From(breaks, j), To(text, breaks, j), span)
  }

  ghost predicate AmongFirst(text: string, breaks: seq<Span>, n: nat, span: Span)
    requires BreaksIn(text, breaks)
  {
    exists j: nat :: j < n && IsStretch(text, breaks, j, span)
  }

  lemma OneMoreStretch(text: string, breaks: seq<Span>, n: nat, span: Span)
    requires BreaksIn(text, breaks)
    ensures AmongFirst(text, breaks, n + 1, span) <==>
              AmongFirst(text, breaks, n, span) || IsStretch(text, breaks, n, span)
  {
  }

  /** One more break ends one more stretch. */
  lemma NextStretch(text: string, breaks: seq<Span>, n: nat, span: Span)
    requires BreaksIn(text, breaks) && n < |breaks| && BreaksIn(text, breaks[..n]) && BreaksIn(text, breaks[..n + 1])
    ensures span in Before(text, breaks[..n + 1]) <==>
              span in Before(text, breaks[..n]) || IsStretch(text, breaks, n, span)
  {
    BeforeNext(text, breaks, n);
    assert EndOf(breaks[..n]) == From(breaks, n);
    TrimExactly(text, From(breaks, n), breaks[n].start, span);
  }

  /** The spans before the first n breaks are the first n stretches. */
  lemma {:induction false} BeforeExactly(text: string, breaks: seq<Span>, n: nat, span: Span)
    requires BreaksIn(text, breaks) && n <= |breaks| && BreaksIn(text, breaks[..n])
    ensures span in Before(text, breaks[..n]) <==> AmongFirst(text, breaks, n, span)
  {
    if n > 0 {
      FirstBreaks(text, breaks, n - 1);
      BeforeExactly(text, breaks, n - 1, span);
      NextStretch(text, breaks, n - 1, span);
      OneMoreStretch(text, breaks, n - 1, span);
    }
  }

  lemma TrimExactly(text: string, a: nat, b: nat, span: Span)
    requires a <= b <= |text|
    ensures span in AsSeq(TrimTo(text, a, b)) <==> TrimOf(text, a, b, span)
  {
    if TrimOf(text, a, b, span) { TrimIsUnique(text, a, b, span); }
  }

  /** The sentence spans are exactly the trimmed stretches between breaks: no span reaches over a break, and
      only breaks separate them. */
  lemma SentencesExactly(text: string, breaks: seq<Span>, span: Span)
    requires BreaksIn(text, breaks)
    ensures span in Sentences(text, breaks) <==> exists j: nat :: IsStretch(text, breaks, j, span)
  {
    BreaksEnd(text, breaks);
    assert breaks[..|breaks|] == breaks;
    BeforeExactly(text, breaks, |breaks|, span);
    StretchesFit(text, breaks, |breaks|);
    assert From(breaks, |breaks|) == EndOf(breaks);
    TrimExactly(text, EndOf(breaks), |text|, span);
    OneMoreStretch(text, breaks, |breaks|, span);
    if j: nat :| IsStretch(text, breaks, j, span) { assert AmongFirst(text, breaks, |breaks| + 1, span); }
  }

  /** A span within the limit stays as it is, a longer one becomes its pieces. */
  ghost predicate ComesFrom(text: string, span: Span, max: nat, x: Span)
    requires max > 0 && span.In(text)
  {
    if span.end - span.start > max then x in Pieces(text, span.start, span.end, max) else x == span
  }

  ghost predicate ComesFromFirst(text: string, spans: seq<Span>, max: nat, n: nat, x: Span)
    requires max > 0 && n <= |spans| && forall k :: 0 <= k < |spans| ==> spans[k].In(text)
  {
    exists k :: 0 <= k < n && ComesFrom(text, spans[k], max, x)
  }

  lemma NextBound(text: string, spans: seq<Span>, max: nat, n: nat, x: Span)
    requires max > 0 && n < |spans| && forall k :: 0 <= k < |spans| ==> spans[k].In(text)
    ensures x in Bound(text, spans[..n + 1], max) <==>
              x in Bound(text, spans[..n], max) || ComesFrom(text, spans[n], max, x)
  {
    BoundNext(text, spans, max, n);
  }

  lemma NextSource(text: string, spans: seq<Span>, max: nat, n: nat, x: Span)
    requires max > 0 && n < |spans| && forall k :: 0 <= k < |spans| ==> spans[k].In(text)
    ensures ComesFromFirst(text, spans, max, n + 1, x) <==>
              ComesFromFirst(text, spans, max, n, x) || ComesFrom(text, spans[n], max, x)
  {
  }

  lemma {:induction false} BoundFirst(text: string, spans: seq<Span>, max: nat, n: nat, x: Span)
    requires max > 0 && n <= |spans| && forall k :: 0 <= k < |spans| ==> spans[k].In(text)
    ensures x in Bound(text, spans[..n], max) <==> ComesFromFirst(text, spans, max, n, x)
  {
    if n > 0 {
      BoundFirst(text, spans, max, n - 1, x);
      NextBound(text, spans, max, n - 1, x);
      NextSource(text, spans, max, n - 1, x);
    }
  }

  /** Exactly the spans that come from a sentence span in this way make up the bounded ones. */
  lemma BoundExactly(text: string, spans: seq<Span>, max: nat, x: Span)
    requires max > 0 && forall k :: 0 <= k < |spans| ==> spans[k].In(text)
    ensures x in Bound(text, spans, max) <==> exists k :: 0 <= k < |spans| && ComesFrom(text, spans[k], max, x)
  {
    assert spans[..|spans|] == spans;
    BoundFirst(text, spans, max, |spans|, x);
  }

  /** What the next chunk repeats: the shortest tail of the spans that is at least as long as the overlap, or all
      of them when they are not. */
  lemma {:induction false} OverlapIsShortest(s: seq<Span>, lo: nat, hi: nat, overlap: int, from: nat)
    requires lo <= from <= hi <= |s| && forall x :: from < x <= hi ==> Total(s, x, hi) < overlap
    ensures var r := OverlapStart(s, lo, hi, overlap, from);
            && lo <= r <= from
            && (r > lo ==> Total(s, r, hi) >= overlap)
            && (forall x :: r < x <= hi ==> Total(s, x, hi) < overlap)
    decreases from
  {
    if from > lo && Total(s, from, hi) < overlap { OverlapIsShortest(s, lo, hi, overlap, from - 1); }
  }
}
