/** Sentence-aware chunking.  A span is kept as its pair of offsets (its text is that slice of
    the document); the sentence breaks found by the regular expression are an input. */
module Chunking {
  import opened Strings
  import opened Wrappers

  const CHARS_PER_TOKEN := 4

  datatype Span = Span(start: nat, end: nat) {
    ghost predicate In(text: string) { start < end <= |text| }

    function Len(): int { end - start }
  }

  datatype Section = Section(name: string, charStart: nat, charEnd: nat)

  datatype Chunk = Chunk(content: string, charStart: nat, charEnd: nat, page: nat, section: string)

  predicate SplitsWords(c: char) { c == '\n' || c == ' ' || c == '\t' }

  ghost predicate Blank(text: string, a: nat, b: nat)
    requires b <= |text|
  {
    forall i :: a <= i < b ==> PySpace(text[i])
  }

  ghost predicate Trimmed(text: string, s: Span) {
    s.In(text) && !PySpace(text[s.start]) && !PySpace(text[s.end - 1])
  }

  /** The spans stand in order inside [a, b), are trimmed, and only whitespace lies outside them. */
  ghost predicate Tiles(text: string, spans: seq<Span>, a: nat, b: nat)
    requires b <= |text|
  {
    if spans == [] then a <= b && Blank(text, a, b)
    else
      var last := spans[|spans| - 1];
      && a <= last.start && last.end <= b && Trimmed(text, last) && Blank(text, last.end, b)
      && Tiles(text, spans[..|spans| - 1], a, last.start)
  }

  lemma {:induction false} TilesConcat(text: string, s: seq<Span>, t: seq<Span>, a: nat, b: nat, c: nat)
    requires b <= c <= |text| && Tiles(text, s, a, b) && Tiles(text, t, b, c)
    ensures Tiles(text, s + t, a, c)
  {
    if t == [] {
      assert s + t == s;
      if s != [] { assert Blank(text, s[|s| - 1].end, c); }
    } else {
      var last := t[|t| - 1];
      TilesConcat(text, s, t[..|t| - 1], a, b, last.start);
      assert (s + t)[..|s + t| - 1] == s + t[..|t| - 1];
    }
  }

  lemma TilesGap(text: string, s: seq<Span>, a: nat, b: nat, c: nat)
    requires b <= c <= |text| && Tiles(text, s, a, b) && Blank(text, b, c)
    ensures Tiles(text, s, a, c)
  {
    if s != [] { assert Blank(text, s[|s| - 1].end, c); }
  }

  lemma TilesSnoc(text: string, s: seq<Span>, p: Span, a: nat, b: nat)
    requires b <= p.start && Trimmed(text, p) && Tiles(text, s, a, b) && Blank(text, b, p.start)
    ensures Tiles(text, s + [p], a, p.end)
  {
    TilesGap(text, s, a, b, p.start);
    assert (s + [p])[..|s|] == s;
  }

  lemma {:induction false} TilesExtent(text: string, s: seq<Span>, a: nat, b: nat)
    requires b <= |text| && Tiles(text, s, a, b)
    ensures a <= b
    ensures forall k :: 0 <= k < |s| ==> a <= s[k].start && s[k].end <= b && Trimmed(text, s[k])
    ensures forall j, k :: 0 <= j < k < |s| ==> s[j].end <= s[k].start
  {
    if s != [] {
      TilesExtent(text, s[..|s| - 1], a, s[|s| - 1].start);
    }
  }

  /** Coverage: a non-whitespace character lies in exactly one span. */
  lemma {:induction false} CoveredOnce(text: string, s: seq<Span>, a: nat, b: nat, i: nat)
    requires b <= |text| && Tiles(text, s, a, b) && a <= i < b && !PySpace(text[i])
    ensures exists k :: 0 <= k < |s| && s[k].start <= i < s[k].end
    ensures forall j, k :: 0 <= j < |s| && 0 <= k < |s| && s[j].start <= i < s[j].end && s[k].start <= i < s[k].end
              ==> j == k
  {
    TilesExtent(text, s, a, b);
    var last := s[|s| - 1];
    if i < last.start {
      CoveredOnce(text, s[..|s| - 1], a, last.start, i);
      var k :| 0 <= k < |s| - 1 && s[..|s| - 1][k].start <= i < s[..|s| - 1][k].end;
      assert s[k].start <= i < s[k].end;
    } else {
      assert last.start <= i < last.end;
    }
  }

  // ---------- trimming and splitting ----------

  ghost predicate TrimOf(text: string, from: nat, to: nat, s: Span)
    requires to <= |text|
  {
    from <= s.start && s.end <= to && Trimmed(text, s) && Blank(text, from, s.start) && Blank(text, s.end, to)
  }

  /** The first position from `from` on that is not whitespace, or `to`. */
  function FirstInk(text: string, from: nat, to: nat): (r: nat)
    requires from <= to <= |text|
    ensures from <= r <= to && Blank(text, from, r) && (r < to ==> !PySpace(text[r]))
    decreases |text| - from
  {
    if from < to && PySpace(text[from]) then FirstInk(text, from + 1, to) else from
  }

  /** Just behind the last position before `to` that is not whitespace, or `from`. */
  function LastInk(text: string, from: nat, to: nat): (r: nat)
    requires from <= to <= |text|
    ensures from <= r <= to && Blank(text, r, to) && (from < r ==> !PySpace(text[r - 1]))
    decreases 0 + to
  {
    if from < to && PySpace(text[to - 1]) then LastInk(text, from, to - 1) else to
  }

  function TrimTo(text: string, from: nat, to: nat): (r: Option<Span>)
    requires from <= to <= |text|
    ensures r.None? <==> Blank(text, from, to)
    ensures r.Some? ==> TrimOf(text, from, to, r.value)
  {
    var start := FirstInk(text, from, to);
    var end := LastInk(text, start, to);
    if start >= end then None else Some(Span(start, end))
  }

  lemma TrimIsUnique(text: string, from: nat, to: nat, s: Span)
    requires from <= to <= |text| && TrimOf(text, from, to, s)
    ensures TrimTo(text, from, to) == Some(s)
  {
    var r := TrimTo(text, from, to).value;
    assert r.start == s.start;
    assert r.end == s.end;
  }

  method TrimSpan(text: string, from: nat, to: nat) returns (r: Option<Span>)
    requires from <= to <= |text|
    ensures r == TrimTo(text, from, to)
  {
    var start, end := from, to;
    while start < end && PySpace(text[start])
      invariant from <= start <= end && Blank(text, from, start)
    {
      start := start + 1;
    }
    while end > start && PySpace(text[end - 1])
      invariant from <= start <= end <= to && Blank(text, end, to)
      invariant start < to ==> !PySpace(text[start])
    {
      end := end - 1;
    }
    if start >= end { return None; }
    TrimIsUnique(text, from, to, Span(start, end));
    return Some(Span(start, end));
  }

  /** Where the last newline, space or tab of the window stands, counted from its start; -1 for none. */
  function LastBreakAt(text: string, from: nat, to: nat): (at: int)
    requires from <= to <= |text|
    ensures -1 <= at < to - from
    ensures at >= 0 ==> SplitsWords(text[from + at])
    ensures forall i :: from + at < i < to && from <= i ==> !SplitsWords(text[i])
    decreases 0 + to
  {
    if from == to then -1 else if SplitsWords(text[to - 1]) then to - 1 - from else LastBreakAt(text, from, to - 1)
  }

  /** `max(rfind newline, rfind space, rfind tab)` in the window. */
  method LastBreak(text: string, from: nat, to: nat) returns (at: int)
    requires from <= to <= |text|
    ensures at == LastBreakAt(text, from, to)
  {
    at := to - from - 1;
    while at >= 0 && !SplitsWords(text[from + at])
      invariant -1 <= at < to - from
      invariant LastBreakAt(text, from, to) == LastBreakAt(text, from, from + at + 1)
    {
      at := at - 1;
    }
  }

  ghost predicate AtMost(s: seq<Span>, max: int) { forall k :: 0 <= k < |s| ==> s[k].Len() <= max }

  /** Two neighbouring parts touch only at a hard cut, and a hard cut is made only when the
      second half of the window before it has no newline, space or tab. */
  ghost predicate CutsNeeded(text: string, parts: seq<Span>, max: nat) {
    forall k :: 0 <= k < |parts| - 1 && Touch(parts, k) ==> HardCut(text, parts[k].end, max)
  }

  ghost predicate Touch(parts: seq<Span>, k: nat)
    requires k + 1 < |parts|
  {
    parts[k].end == parts[k + 1].start
  }

  ghost predicate HardCut(text: string, cut: nat, max: nat) {
    forall i :: cut - max + max / 2 < i < cut && 0 <= i < |text| ==> !SplitsWords(text[i])
  }

  /** Where the window starting at `cursor` is cut: at its end when the span ends there, else at the
      last break in its second half, else hard at the limit. */
  function CutAt(text: string, cursor: nat, end: nat, max: nat): (cut: nat)
    requires cursor < end <= |text| && max > 0
    ensures cursor < cut <= end && cut <= cursor + max
    ensures cut < end && !PySpace(text[cut]) ==> HardCut(text, cut, max)
  {
    var cut := if cursor + max < end then cursor + max else end;
    if cut < end && LastBreakAt(text, cursor, cut) > max / 2 then cursor + LastBreakAt(text, cursor, cut) else cut
  }

  /** The cut, exactly: at a newline, space or tab in the second half of a full window that does not reach the
      end of the span, the last one there is; and at the end of the window when it has none. */
  lemma CutIsLastBreak(text: string, cursor: nat, end: nat, max: nat)
    requires cursor < end <= |text| && max > 0
    ensures var cut, window := CutAt(text, cursor, end, max), if end <= cursor + max then end else cursor + max;
            if window < end && exists i :: cursor + max / 2 < i < window && SplitsWords(text[i]) then
              && cursor + max / 2 < cut < window && SplitsWords(text[cut])
              && forall i :: cut < i < window ==> !SplitsWords(text[i])
            else cut == window
  {
    var window := if end <= cursor + max then end else cursor + max;
    if window < end {
      var at := LastBreakAt(text, cursor, window);
      if i :| cursor + max / 2 < i < window && SplitsWords(text[i]) { assert at >= i - cursor; }
    }
  }

  method NextCut(text: string, cursor: nat, end: nat, max: nat) returns (cut: nat)
    requires cursor < end <= |text| && max > 0
    ensures cut == CutAt(text, cursor, end, max)
  {
    cut := if cursor + max < end then cursor + max else end;
    if cut < end {
      var splitAt := LastBreak(text, cursor, cut);
      if splitAt > max / 2 { cut := cursor + splitAt; }
    }
    assert cut > cursor;  // so the source's second fallback is never taken
  }

  /** The parts of a span: trimmed windows, each next one starting where the last part ended. */
  function Pieces(text: string, cursor: nat, end: nat, max: nat): seq<Span>
    requires cursor <= end <= |text| && max > 0
    decreases end - cursor
  {
    if cursor == end then []
    else
      var cut := CutAt(text, cursor, end, max);
      match TrimTo(text, cursor, cut)
      case Some(part) => [part] + Pieces(text, part.end, end, max)
      case None => Pieces(text, cut, end, max)
  }

  lemma OnePieceTiles(text: string, cursor: nat, cut: nat, part: Span, rest: seq<Span>, end: nat)
    requires cursor <= cut <= end <= |text| && TrimOf(text, cursor, cut, part) && Tiles(text, rest, part.end, end)
    ensures Tiles(text, [part] + rest, cursor, end)
  {
    TilesSnoc(text, [], part, cursor, cursor);
    assert [] + [part] == [part];
    TilesConcat(text, [part], rest, cursor, part.end, end);
  }

  lemma OnePieceCuts(text: string, cursor: nat, end: nat, max: nat, part: Span, rest: seq<Span>)
    requires cursor < end <= |text| && max > 0 && TrimTo(text, cursor, CutAt(text, cursor, end, max)) == Some(part)
    requires Tiles(text, rest, part.end, end) && CutsNeeded(text, rest, max)
    ensures CutsNeeded(text, [part] + rest, max)
  {
    TilesExtent(text, rest, part.end, end);
    var all := [part] + rest;
    forall k | 0 <= k < |all| - 1 && Touch(all, k) ensures HardCut(text, all[k].end, max) {
      if k > 0 { assert Touch(rest, k - 1); }
    }
  }

  ghost predicate GoodPieces(text: string, parts: seq<Span>, cursor: nat, end: nat, max: nat)
    requires end <= |text|
  {
    Tiles(text, parts, cursor, end) && AtMost(parts, max) && CutsNeeded(text, parts, max)
  }

  lemma OnePieceMore(text: string, cursor: nat, end: nat, max: nat, part: Span, rest: seq<Span>)
    requires cursor < end <= |text| && max > 0 && TrimTo(text, cursor, CutAt(text, cursor, end, max)) == Some(part)
    requires GoodPieces(text, rest, part.end, end, max)
    ensures GoodPieces(text, [part] + rest, cursor, end, max)
  {
    OnePieceTiles(text, cursor, CutAt(text, cursor, end, max), part, rest, end);
    OnePieceCuts(text, cursor, end, max, part, rest);
  }

  /** The pieces of a span lose nothing but whitespace, are no longer than the limit, and cut a word
      only where the second half of the window has no break. */
  lemma {:induction false} PiecesFacts(text: string, cursor: nat, end: nat, max: nat)
    requires cursor <= end <= |text| && max > 0
    ensures GoodPieces(text, Pieces(text, cursor, end, max), cursor, end, max)
    decreases end - cursor
  {
    if cursor < end {
      var cut := CutAt(text, cursor, end, max);
      match TrimTo(text, cursor, cut)
      case Some(part) =>
        PiecesFacts(text, part.end, end, max);
        OnePieceMore(text, cursor, end, max, part, Pieces(text, part.end, end, max));
      case None =>
        PiecesFacts(text, cut, end, max);
        TilesBefore(text, Pieces(text, cut, end, max), cursor, cut, end);
    }
  }

  lemma {:induction false} TilesBefore(text: string, s: seq<Span>, a: nat, b: nat, c: nat)
    requires a <= b <= c <= |text| && Blank(text, a, b) && Tiles(text, s, b, c)
    ensures Tiles(text, s, a, c)
  {
    TilesConcat(text, [], s, a, b, c);
    assert [] + s == s;
  }

  method SplitOversizedSpan(text: string, start: nat, end: nat, max: nat) returns (parts: seq<Span>)
    requires start <= end <= |text| && max > 0
    ensures parts == Pieces(text, start, end, max)
  {
    parts := [];
    var cursor := start;
    while cursor < end
      invariant start <= cursor <= end
      invariant parts + Pieces(text, cursor, end, max) == Pieces(text, start, end, max)
      decreases end - cursor
    {
      var cut := NextCut(text, cursor, end, max);
      var part := TrimSpan(text, cursor, cut);
      if part.Some? {
        Associate(parts, [part.value], Pieces(text, part.value.end, end, max));
        parts := parts + [part.value];
        cursor := part.value.end;
      } else {
        cursor := cut;
      }
    }
  }

  lemma Associate(a: seq<Span>, b: seq<Span>, c: seq<Span>)
    ensures a + (b + c) == (a + b) + c
  {
  }

  // ---------- sentence boundaries ----------

  /** What the sentence-break matches are: in order, disjoint, all whitespace. */
  ghost predicate BreaksIn(text: string, breaks: seq<Span>) {
    && (forall k :: 0 <= k < |breaks| ==> breaks[k].In(text) && Blank(text, breaks[k].start, breaks[k].end))
    && (forall j, k :: 0 <= j < k < |breaks| ==> breaks[j].end <= breaks[k].start)
  }

  function AsSeq(span: Option<Span>): seq<Span> { if span.Some? then [span.value] else [] }

  function EndOf(breaks: seq<Span>): nat { if breaks == [] then 0 else breaks[|breaks| - 1].end }

  /** The trimmed stretches of text before each sentence break. */
  function Before(text: string, breaks: seq<Span>): (r: seq<Span>)
    requires BreaksIn(text, breaks)
    ensures forall k :: 0 <= k < |r| ==> r[k].In(text)
  {
    if breaks == [] then []
    else
      var earlier := breaks[..|breaks| - 1];
      BreaksEnd(text, breaks);
      Before(text, earlier) + AsSeq(TrimTo(text, EndOf(earlier), breaks[|breaks| - 1].start))
  }

  lemma BreaksEnd(text: string, breaks: seq<Span>)
    requires BreaksIn(text, breaks)
    ensures EndOf(breaks) <= |text|
    ensures breaks != [] ==>
              BreaksIn(text, breaks[..|breaks| - 1]) && EndOf(breaks[..|breaks| - 1]) <= breaks[|breaks| - 1].start
  {
  }

  lemma FirstBreaks(text: string, breaks: seq<Span>, k: nat)
    requires BreaksIn(text, breaks) && k <= |breaks|
    ensures BreaksIn(text, breaks[..k])
  {
  }

  lemma BeforeSnoc(text: string, earlier: seq<Span>, next: Span)
    requires BreaksIn(text, earlier + [next]) && BreaksIn(text, earlier) && EndOf(earlier) <= next.start <= |text|
    ensures Before(text, earlier + [next]) == Before(text, earlier) + AsSeq(TrimTo(text, EndOf(earlier), next.start))
  {
    assert (earlier + [next])[..|earlier|] == earlier;
  }

  lemma BeforeNext(text: string, breaks: seq<Span>, k: nat)
    requires BreaksIn(text, breaks) && k < |breaks|
    ensures BreaksIn(text, breaks[..k]) && BreaksIn(text, breaks[..k + 1])
    ensures EndOf(breaks[..k]) <= breaks[k].start <= breaks[k].end <= |text| && EndOf(breaks[..k + 1]) == breaks[k].end
    ensures Blank(text, breaks[k].start, breaks[k].end)
    ensures Before(text, breaks[..k + 1]) ==
              Before(text, breaks[..k]) + AsSeq(TrimTo(text, EndOf(breaks[..k]), breaks[k].start))
  {
    FirstBreaks(text, breaks, k);
    FirstBreaks(text, breaks, k + 1);
    assert breaks[k].In(text);
    var earlier := breaks[..k];
    assert breaks[..k + 1] == earlier + [breaks[k]];
    BeforeSnoc(text, earlier, breaks[k]);
  }

  function Sentences(text: string, breaks: seq<Span>): (r: seq<Span>)
    requires BreaksIn(text, breaks)
    ensures forall k :: 0 <= k < |r| ==> r[k].In(text)
  {
    BreaksEnd(text, breaks);
    Before(text, breaks) + AsSeq(TrimTo(text, EndOf(breaks), |text|))
  }

  /** Every span longer than the limit replaced by its pieces. */
  function Bound(text: string, spans: seq<Span>, max: nat): seq<Span>
    requires max > 0 && forall k :: 0 <= k < |spans| ==> spans[k].In(text)
  {
    if spans == [] then []
    else
      var last := spans[|spans| - 1];
      assert last.In(text);
      Bound(text, spans[..|spans| - 1], max)
      + if last.Len() <= max then [last] else Pieces(text, last.start, last.end, max)
  }

  /** The spans of a document under a limit; no limit at all when it is not positive. */
  function Bounded(text: string, breaks: seq<Span>, limit: int): seq<Span>
    requires BreaksIn(text, breaks)
  {
    if limit <= 0 then Sentences(text, breaks) else Bound(text, Sentences(text, breaks), limit)
  }

  method SentenceBoundarySplit(text: string, breaks: seq<Span>, maxSegment: Option<int>) returns (bounded: seq<Span>)
    requires BreaksIn(text, breaks)
    ensures bounded == Bounded(text, breaks, if maxSegment.None? then 0 else maxSegment.value)
    ensures Tiles(text, bounded, 0, |text|)
    ensures maxSegment.Some? && maxSegment.value > 0
            ==> AtMost(bounded, maxSegment.value)
  {
    var spans := SplitSentences(text, breaks);
    if maxSegment.None? || maxSegment.value <= 0 { return spans; }
    bounded := BoundSpans(text, spans, maxSegment.value);
  }

  method SplitSentences(text: string, breaks: seq<Span>) returns (spans: seq<Span>)
    requires BreaksIn(text, breaks)
    ensures spans == Sentences(text, breaks) && Tiles(text, spans, 0, |text|)
  {
    spans := [];
    var lastEnd: nat := 0;
    for k := 0 to |breaks|
      invariant lastEnd <= |text| && Tiles(text, spans, 0, lastEnd)
      invariant lastEnd == EndOf(breaks[..k]) && spans == Before(text, breaks[..k])
    {
      BeforeNext(text, breaks, k);
      var span := TrimSpan(text, lastEnd, breaks[k].start);
      spans := AppendTrimmed(text, spans, lastEnd, breaks[k].start, span);
      TilesGap(text, spans, 0, breaks[k].start, breaks[k].end);
      lastEnd := breaks[k].end;
    }
    assert breaks[..|breaks|] == breaks;
    var tail := TrimSpan(text, lastEnd, |text|);
    spans := AppendTrimmed(text, spans, lastEnd, |text|, tail);
  }

  method AppendTrimmed(text: string, spans: seq<Span>, a: nat, b: nat, span: Option<Span>) returns (r: seq<Span>)
    requires a <= b <= |text| && Tiles(text, spans, 0, a)
    requires if span.Some? then TrimOf(text, a, b, span.value) else Blank(text, a, b)
    ensures Tiles(text, r, 0, b)
    ensures r == spans + AsSeq(span)
  {
    r := spans;
    match span
    case Some(p) =>
      TilesSnoc(text, spans, p, 0, a);
      r := r + [p];
      TilesGap(text, r, 0, p.end, b);
    case None =>
      TilesGap(text, spans, 0, a, b);
  }

  lemma BoundNext(text: string, spans: seq<Span>, max: nat, k: nat)
    requires max > 0 && k < |spans| && forall j :: 0 <= j < |spans| ==> spans[j].In(text)
    ensures Bound(text, spans[..k + 1], max) ==
              Bound(text, spans[..k], max)
              + if spans[k].Len() <= max then [spans[k]] else Pieces(text, spans[k].start, spans[k].end, max)
  {
    assert spans[..k + 1][..k] == spans[..k];
  }

  /** Where the first k spans end. */
  ghost function EndOfFirst(spans: seq<Span>, k: nat): nat
    requires k <= |spans|
  {
    if k == 0 then 0 else spans[k - 1].end
  }

  /** Replaces each span longer than the limit by its parts. */
  method BoundSpans(text: string, spans: seq<Span>, max: nat) returns (bounded: seq<Span>)
    requires max > 0 && Tiles(text, spans, 0, |text|)
    requires forall k :: 0 <= k < |spans| ==> spans[k].In(text)
    ensures bounded == Bound(text, spans, max)
    ensures Tiles(text, bounded, 0, |text|)
    ensures AtMost(bounded, max)
  {
    bounded := [];
    for k := 0 to |spans|
      invariant EndOfFirst(spans, k) <= |text| && Tiles(text, bounded, 0, EndOfFirst(spans, k))
      invariant AtMost(bounded, max) && bounded == Bound(text, spans[..k], max)
    {
      BoundNext(text, spans, max, k);
      GapBefore(text, spans, 0, |text|, k);
      assert spans[k].In(text);
      bounded := BoundOne(text, bounded, spans[k], max, EndOfFirst(spans, k));
    }
    assert spans[..|spans|] == spans;
    GapBefore(text, spans, 0, |text|, |spans|);
    TilesGap(text, bounded, 0, EndOfFirst(spans, |spans|), |text|);
  }

  method BoundOne(text: string, before: seq<Span>, span: Span, max: nat, ghost done: nat) returns (bounded: seq<Span>)
    requires max > 0 && done <= span.start && Trimmed(text, span)
    requires Tiles(text, before, 0, done) && Blank(text, done, span.start) && AtMost(before, max)
    ensures bounded == before + if span.Len() <= max then [span] else Pieces(text, span.start, span.end, max)
    ensures Tiles(text, bounded, 0, span.end) && AtMost(bounded, max)
  {
    if span.Len() <= max {
      TilesSnoc(text, before, span, 0, done);
      bounded := before + [span];
    } else {
      var parts := SplitOversizedSpan(text, span.start, span.end, max);
      PiecesFacts(text, span.start, span.end, max);
      TilesGap(text, before, 0, done, span.start);
      TilesConcat(text, before, parts, 0, span.start, span.end);
      bounded := before + parts;
    }
  }

  /** Only whitespace before span `k` (or, for the last `k`, after the last span). */
  lemma {:induction false} GapBefore(text: string, s: seq<Span>, a: nat, b: nat, k: nat)
    requires b <= |text| && Tiles(text, s, a, b) && k <= |s|
    ensures var from := if k == 0 then a else s[k - 1].end;
            var to := if k == |s| then b else s[k].start;
            from <= to <= |text| && Blank(text, from, to) && (k < |s| ==> Trimmed(text, s[k]))
  {
    TilesExtent(text, s, a, b);
    if k < |s| {
      GapBefore(text, s[..|s| - 1], a, s[|s| - 1].start, k);
    }
  }

  // ---------- packing spans into chunks ----------

  /** Characters in spans lo..hi. */
  function Total(s: seq<Span>, lo: nat, hi: nat): int
    requires hi <= |s|
  {
    if hi <= lo then 0 else Total(s, lo, hi - 1) + s[hi - 1].Len()
  }

  ghost predicate Positive(s: seq<Span>) { forall k :: 0 <= k < |s| ==> s[k].start < s[k].end }

  lemma {:induction false} TotalSplit(s: seq<Span>, lo: nat, mid: nat, hi: nat)
    requires lo <= mid <= hi <= |s|
    ensures Total(s, lo, hi) == Total(s, lo, mid) + Total(s, mid, hi)
  {
    if mid < hi { TotalSplit(s, lo, mid, hi - 1); }
  }

  lemma {:induction false} TotalGrows(s: seq<Span>, lo: nat, hi: nat)
    requires hi <= |s| && Positive(s)
    ensures Total(s, lo, hi) >= hi - lo && Total(s, lo, hi) >= 0
  {
    if lo < hi { TotalGrows(s, lo, hi - 1); }
  }

  /** How many of the spans lo..hi the next chunk keeps: the shortest tail of at least
      `overlap` characters, or all of them. */
  function OverlapStart(s: seq<Span>, lo: nat, hi: nat, overlap: int, from: nat): (r: nat)
    requires lo <= from <= hi <= |s|
    ensures lo <= r <= from
    decreases from
  {
    if from > lo && Total(s, from, hi) < overlap then OverlapStart(s, lo, hi, overlap, from - 1) else from
  }

  datatype Range = Range(lo: nat, hi: nat)

  ghost function FirstNew(ranges: seq<Range>, i: nat): nat
    requires i < |ranges|
  {
    if i == 0 then 0 else ranges[i - 1].hi
  }

  /** The chunks as runs of spans.  A chunk starts with the overlap of its predecessor, takes
      one new span whatever its length, then every further span that still fits, and stops
      exactly when the next one does not. */
  ghost predicate ChunkAt(s: seq<Span>, limit: int, overlap: int, ranges: seq<Range>, i: nat)
    requires i < |ranges|
  {
    var r := ranges[i];
    var first := FirstNew(ranges, i);
    && r.lo <= first < r.hi <= |s|
    && (i == 0 ==> r.lo == 0)
    && (i > 0 ==> ranges[i - 1].lo <= ranges[i - 1].hi
                  && r.lo == OverlapStart(s, ranges[i - 1].lo, ranges[i - 1].hi, overlap, ranges[i - 1].hi))
    && (forall h :: first < h < r.hi ==> Total(s, r.lo, h) + s[h].Len() <= limit)
    && (r.hi < |s| ==> Total(s, r.lo, r.hi) + s[r.hi].Len() > limit)
  }

  ghost predicate Packed(s: seq<Span>, limit: int, overlap: int, ranges: seq<Range>) {
    forall i :: 0 <= i < |ranges| ==> ChunkAt(s, limit, overlap, ranges, i)
  }

  ghost predicate Packing(s: seq<Span>, limit: int, overlap: int, ranges: seq<Range>) {
    && Packed(s, limit, overlap, ranges)
    && (s == [] ==> ranges == [])
    && (s != [] ==> ranges != [] && ranges[|ranges| - 1].hi == |s|)
  }

  ghost predicate InText(text: string, s: seq<Span>) {
    forall k :: 0 <= k < |s| ==> s[k].start < s[k].end <= |text|
  }

  function Joined(text: string, s: seq<Span>): string
    requires InText(text, s)
  {
    if s == [] then ""
    else if |s| == 1 then text[s[0].start..s[0].end]
    else Joined(text, s[..|s| - 1]) + " " + text[s[|s| - 1].start..s[|s| - 1].end]
  }

  method FindPage(offset: int, breaks: seq<int>) returns (page: nat)
    ensures page == PageOf(offset, breaks)
  {
    page := 1;
    for k := 0 to |breaks|
      invariant page == k + 1 && forall j :: 0 <= j < k ==> offset >= breaks[j]
    {
      if offset < breaks[k] {
        PageIs(offset, breaks, k);
        return;
      }
      page := page + 1;
    }
    PageIs(offset, breaks, |breaks|);
  }

  function PageOf(offset: int, breaks: seq<int>): nat {
    if breaks == [] || offset < breaks[0] then 1 else 1 + PageOf(offset, breaks[1..])
  }

  lemma {:induction false} PageIs(offset: int, breaks: seq<int>, k: nat)
    requires k <= |breaks| && (forall j :: 0 <= j < k ==> offset >= breaks[j])
    requires k < |breaks| ==> offset < breaks[k]
    ensures PageOf(offset, breaks) == k + 1
  {
    if k > 0 { PageIs(offset, breaks[1..], k - 1); }
  }

  function SectionOf(offset: int, sections: seq<Section>): string {
    if sections == [] then ""
    else if sections[0].charStart <= offset < sections[0].charEnd then sections[0].name
    else SectionOf(offset, sections[1..])
  }

  method FindSection(offset: int, sections: seq<Section>) returns (name: string)
    ensures name == SectionOf(offset, sections)
  {
    for k := 0 to |sections|
      invariant SectionOf(offset, sections) == SectionOf(offset, sections[k..])
    {
      if sections[k].charStart <= offset < sections[k].charEnd { return sections[k].name; }
    }
    return "";
  }

  ghost predicate ChunkOf(c: Chunk, text: string, s: seq<Span>, r: Range, pages: seq<int>, sections: seq<Section>)
    requires InText(text, s)
  {
    && r.lo < r.hi <= |s|
    && c.content == Joined(text, s[r.lo..r.hi])
    && c.charStart == s[r.lo].start && c.charEnd == s[r.hi - 1].end
    && c.page == PageOf(c.charStart, pages) && c.section == SectionOf(c.charStart, sections)
  }

  /** Emits the chunk of the spans under construction, which are spans lo..hi of the document. */
  method MakeChunk(text: string, current: seq<Span>, pages: seq<int>, sections: seq<Section>,
                   ghost s: seq<Span>, ghost lo: nat, ghost hi: nat) returns (c: Chunk)
    requires InText(text, s) && lo < hi <= |s| && current == s[lo..hi]
    ensures ChunkOf(c, text, s, Range(lo, hi), pages, sections)
  {
    var page := FindPage(current[0].start, pages);
    var section := FindSection(current[0].start, sections);
    c := Chunk(Joined(text, current), current[0].start, current[|current| - 1].end, page, section);
  }

  /** The overlap kept from the spans under construction: the source's inner loop and slice. */
  method KeepOverlap(current: seq<Span>, overlap: int) returns (kept: seq<Span>, length: int)
    ensures kept == current[OverlapStart(current, 0, |current|, overlap, |current|)..]
    ensures length == Total(kept, 0, |kept|)
  {
    var overlapLength := 0;
    var start: nat := |current|;
    while start > 0 && overlapLength < overlap
      invariant start <= |current| && overlapLength == Total(current, start, |current|)
      invariant OverlapStart(current, 0, |current|, overlap, |current|) ==
                  OverlapStart(current, 0, |current|, overlap, start)
    {
      start := start - 1;
      TotalSplit(current, start, start + 1, |current|);
      overlapLength := overlapLength + current[start].Len();
    }
    kept := current[start..];
    length := Total(kept, 0, |kept|);
  }

  /** What is kept, as a run of the document's spans. */
  lemma KeptRun(s: seq<Span>, lo: nat, hi: nat, overlap: int, kept: seq<Span>)
    requires lo <= hi <= |s|
    requires kept == s[lo..hi][OverlapStart(s[lo..hi], 0, hi - lo, overlap, hi - lo)..]
    ensures var from := OverlapStart(s, lo, hi, overlap, hi);
            kept == s[from..hi] && Total(kept, 0, |kept|) == Total(s, from, hi)
  {
    SliceOverlap(s, lo, hi, overlap, hi - lo);
    var from := OverlapStart(s, lo, hi, overlap, hi);
    SliceTotal(s, from, hi, 0, hi - from);
  }

  lemma {:induction false} SliceTotal(s: seq<Span>, a: nat, b: nat, p: nat, q: nat)
    requires a <= b <= |s| && p <= q <= b - a
    ensures Total(s[a..b], p, q) == Total(s, a + p, a + q)
  {
    if p < q { SliceTotal(s, a, b, p, q - 1); }
  }

  lemma {:induction false} SliceOverlap(s: seq<Span>, a: nat, b: nat, overlap: int, from: nat)
    requires a <= b <= |s| && from <= b - a
    ensures a + OverlapStart(s[a..b], 0, b - a, overlap, from) == OverlapStart(s, a, b, overlap, a + from)
  {
    SliceTotal(s, a, b, from, b - a);
    if from > 0 { SliceOverlap(s, a, b, overlap, from - 1); }
  }

  ghost predicate AllChunks(chunks: seq<Chunk>, text: string, s: seq<Span>, ranges: seq<Range>,
                            pages: seq<int>, sections: seq<Section>)
    requires InText(text, s)
  {
    && |chunks| == |ranges|
    && forall i {:trigger chunks[i]} :: 0 <= i < |chunks| ==>
         ChunkOf(chunks[i], text, s, ranges[i], pages, sections)
  }

  lemma AllChunksSnoc(chunks: seq<Chunk>, text: string, s: seq<Span>, ranges: seq<Range>,
                      pages: seq<int>, sections: seq<Section>, c: Chunk, r: Range)
    requires InText(text, s) && AllChunks(chunks, text, s, ranges, pages, sections)
    requires ChunkOf(c, text, s, r, pages, sections)
    ensures AllChunks(chunks + [c], text, s, ranges + [r], pages, sections)
  {
  }

  /** The chunk under construction: what ChunkAt says, without its last clause. */
  ghost predicate Open(s: seq<Span>, limit: int, overlap: int, ranges: seq<Range>, lo: nat, k: nat) {
    && lo <= NextNew(ranges) <= k <= |s|
    && (ranges == [] ==> lo == 0)
    && (ranges != [] ==> var r := ranges[|ranges| - 1];
                         r.lo <= r.hi <= |s| && lo == OverlapStart(s, r.lo, r.hi, overlap, r.hi))
    && (forall h :: NextNew(ranges) < h < k ==> Total(s, lo, h) + s[h].Len() <= limit)
  }

  ghost function NextNew(ranges: seq<Range>): nat {
    if ranges == [] then 0 else ranges[|ranges| - 1].hi
  }

  lemma CloseChunk(s: seq<Span>, limit: int, overlap: int, ranges: seq<Range>, lo: nat, k: nat)
    requires Open(s, limit, overlap, ranges, lo, k) && NextNew(ranges) < k
    requires k < |s| ==> Total(s, lo, k) + s[k].Len() > limit
    requires Packed(s, limit, overlap, ranges)
    ensures Packed(s, limit, overlap, ranges + [Range(lo, k)])
  {
    var more := ranges + [Range(lo, k)];
    forall i | 0 <= i <= |ranges| ensures ChunkAt(s, limit, overlap, more, i) {
      if i < |ranges| {
        assert ChunkAt(s, limit, overlap, ranges, i);
        assert more[i] == ranges[i] && FirstNew(more, i) == FirstNew(ranges, i);
      } else {
        assert more[i] == Range(lo, k);
        assert FirstNew(more, i) == NextNew(ranges);
      }
    }
  }

  /** The chunks of the spans `s`: one for each run of a packing. */
  ghost predicate Chunked(chunks: seq<Chunk>, text: string, s: seq<Span>, pages: seq<int>, sections: seq<Section>,
                          limit: int, overlap: int, ranges: seq<Range>)
  {
    InText(text, s) && Packing(s, limit, overlap, ranges) && AllChunks(chunks, text, s, ranges, pages, sections)
  }

  method ChunkWithOffsets(text: string, breaks: seq<Span>, pages: seq<int>, sections: seq<Section>,
                          maxTokens: int := 500, overlapTokens: int := 100)
    returns (chunks: seq<Chunk>)
    requires BreaksIn(text, breaks)
    ensures var s := Bounded(text, breaks, maxTokens * CHARS_PER_TOKEN);
            && Tiles(text, s, 0, |text|)
            && (maxTokens > 0 ==> AtMost(s, maxTokens * CHARS_PER_TOKEN))
            && exists ranges :: Chunked(chunks, text, s, pages, sections, maxTokens * CHARS_PER_TOKEN,
                                        overlapTokens * CHARS_PER_TOKEN, ranges)
  {
    var limit := maxTokens * CHARS_PER_TOKEN;
    var sentences := SentenceBoundarySplit(text, breaks, Some(limit));
    TilesExtent(text, sentences, 0, |text|);
    chunks := PackSpans(text, sentences, pages, sections, limit, overlapTokens * CHARS_PER_TOKEN);
  }

  /** The state of the packing loop before span k; `lo` is where the chunk under construction starts. */
  ghost predicate Loop(text: string, s: seq<Span>, pages: seq<int>, sections: seq<Section>, limit: int, overlap: int,
                       chunks: seq<Chunk>, ranges: seq<Range>, current: seq<Span>, length: int, lo: nat, k: nat)
    requires InText(text, s)
  {
    && lo <= k <= |s| && current == s[lo..k] && length == Total(s, lo, k)
    && AllChunks(chunks, text, s, ranges, pages, sections)
    && Packed(s, limit, overlap, ranges) && Open(s, limit, overlap, ranges, lo, k)
  }

  /** Closes the chunk of spans lo..k and keeps its overlap for the next one. */
  method FlushChunk(text: string, chunks: seq<Chunk>, current: seq<Span>, length: int, pages: seq<int>,
                    sections: seq<Section>, ghost limit: int, overlap: int, ghost s: seq<Span>,
                    ghost ranges: seq<Range>, ghost lo: nat, ghost k: nat)
    returns (more: seq<Chunk>, kept: seq<Span>, keptLength: int, ghost from: nat)
    requires InText(text, s) && NextNew(ranges) < k
    requires Loop(text, s, pages, sections, limit, overlap, chunks, ranges, current, length, lo, k)
    requires k < |s| ==> length + s[k].Len() > limit
    ensures Loop(text, s, pages, sections, limit, overlap, more, ranges + [Range(lo, k)], kept, keptLength, from, k)
  {
    var c := MakeChunk(text, current, pages, sections, s, lo, k);
    CloseChunk(s, limit, overlap, ranges, lo, k);
    AllChunksSnoc(chunks, text, s, ranges, pages, sections, c, Range(lo, k));
    more := chunks + [c];
    kept, keptLength := KeepOverlap(current, overlap);
    KeptRun(s, lo, k, overlap, kept);
    from := OverlapStart(s, lo, k, overlap, k);
  }

  lemma GrowRun(s: seq<Span>, lo: nat, k: nat)
    requires lo <= k < |s|
    ensures s[lo..k] + [s[k]] == s[lo..k + 1] && Total(s, lo, k) + s[k].Len() == Total(s, lo, k + 1)
  {
  }

  lemma GrowOpen(s: seq<Span>, limit: int, overlap: int, ranges: seq<Range>, lo: nat, k: nat)
    requires Open(s, limit, overlap, ranges, lo, k) && k < |s|
    requires k == NextNew(ranges) || Total(s, lo, k) + s[k].Len() <= limit
    ensures Open(s, limit, overlap, ranges, lo, k + 1)
  {
  }

  lemma TakeSpan(text: string, s: seq<Span>, pages: seq<int>, sections: seq<Section>, limit: int, overlap: int,
                 chunks: seq<Chunk>, ranges: seq<Range>, current: seq<Span>, length: int, lo: nat, k: nat)
    requires InText(text, s) && Loop(text, s, pages, sections, limit, overlap, chunks, ranges, current, length, lo, k)
    requires k < |s| && (k == NextNew(ranges) || length + s[k].Len() <= limit)
    ensures Loop(text, s, pages, sections, limit, overlap, chunks, ranges, current + [s[k]], length + s[k].Len(), lo,
                 k + 1)
  {
    GrowRun(s, lo, k);
    GrowOpen(s, limit, overlap, ranges, lo, k);
  }

  method PackSpans(text: string, sentences: seq<Span>, pages: seq<int>, sections: seq<Section>, limit: int,
                   overlap: int)
    returns (chunks: seq<Chunk>)
    requires InText(text, sentences)
    ensures exists ranges :: Chunked(chunks, text, sentences, pages, sections, limit, overlap, ranges)
  {
    ghost var ranges: seq<Range> := [];
    chunks := [];
    if sentences == [] {
      assert Chunked(chunks, text, sentences, pages, sections, limit, overlap, ranges);
      return;
    }
    var current: seq<Span> := [];
    var length := 0;
    ghost var lo: nat := 0;
    for k := 0 to |sentences|
      invariant Loop(text, sentences, pages, sections, limit, overlap, chunks, ranges, current, length, lo, k)
      invariant NextNew(ranges) < k || (k == 0 && ranges == [])
    {
      if current != [] && length + sentences[k].Len() > limit {
        ghost var done := Range(lo, k);
        chunks, current, length, lo :=
          FlushChunk(text, chunks, current, length, pages, sections, limit, overlap, sentences, ranges, lo, k);
        ranges := ranges + [done];
      }
      TakeSpan(text, sentences, pages, sections, limit, overlap, chunks, ranges, current, length, lo, k);
      current := current + [sentences[k]];
      length := length + sentences[k].Len();
    }
    ghost var done := Range(lo, |sentences|);
    chunks, current, length, lo :=
      FlushChunk(text, chunks, current, length, pages, sections, limit, overlap, sentences, ranges, lo, |sentences|);
    ranges := ranges + [done];
    assert Chunked(chunks, text, sentences, pages, sections, limit, overlap, ranges);
  }

  // ---------- theorems about every packing ----------

  lemma SameNext(s: seq<Span>, limit: int, overlap: int, r: seq<Range>, t: seq<Range>, i: nat)
    requires Packing(s, limit, overlap, r) && Packing(s, limit, overlap, t) && i < |r| && i <= |t| && r[..i] == t[..i]
    ensures i < |t| && r[i] == t[i]
  {
    assert ChunkAt(s, limit, overlap, r, i);
    if i > 0 { assert r[i - 1] == r[..i][i - 1] == t[i - 1]; }
    assert ChunkAt(s, limit, overlap, t, i);
  }

  lemma {:induction false} SamePrefix(s: seq<Span>, limit: int, overlap: int, r: seq<Range>, t: seq<Range>, i: nat)
    requires Packing(s, limit, overlap, r) && Packing(s, limit, overlap, t) && i <= |r|
    ensures i <= |t| && r[..i] == t[..i]
  {
    if i > 0 {
      SamePrefix(s, limit, overlap, r, t, i - 1);
      SameNext(s, limit, overlap, r, t, i - 1);
      assert r[..i] == r[..i - 1] + [r[i - 1]] && t[..i] == t[..i - 1] + [t[i - 1]];
    }
  }

  /** There is only one packing: limit and overlap determine where every chunk starts and ends. */
  lemma PackingIsUnique(s: seq<Span>, limit: int, overlap: int, r: seq<Range>, t: seq<Range>)
    requires Packing(s, limit, overlap, r) && Packing(s, limit, overlap, t)
    ensures r == t
  {
    SamePrefix(s, limit, overlap, r, t, |r|);
    SamePrefix(s, limit, overlap, t, r, |t|);
    assert r[..|r|] == r && t[..|r|] == t;
  }

  /** Each chunk starts no earlier than its predecessor, ends strictly later, and leaves no
      span between them: it adds at least one new span. */
  lemma ChunksAdvance(s: seq<Span>, limit: int, overlap: int, ranges: seq<Range>, i: nat)
    requires Packing(s, limit, overlap, ranges) && i + 1 < |ranges|
    ensures ranges[i].lo <= ranges[i + 1].lo <= ranges[i].hi < ranges[i + 1].hi
  {
    assert ChunkAt(s, limit, overlap, ranges, i) && ChunkAt(s, limit, overlap, ranges, i + 1);
  }

  lemma {:induction false} PageMonotone(a: int, b: int, breaks: seq<int>)
    requires a <= b
    ensures PageOf(a, breaks) <= PageOf(b, breaks)
  {
    if breaks != [] { PageMonotone(a, b, breaks[1..]); }
  }

  /** The emitted offsets: starts and pages never decrease, ends strictly increase. */
  lemma OffsetsAdvance(text: string, s: seq<Span>, limit: int, overlap: int, ranges: seq<Range>, chunks: seq<Chunk>,
                       pages: seq<int>, sections: seq<Section>, i: nat)
    requires Tiles(text, s, 0, |text|) && InText(text, s) && Packing(s, limit, overlap, ranges)
    requires AllChunks(chunks, text, s, ranges, pages, sections) && i + 1 < |chunks|
    ensures chunks[i].charStart <= chunks[i + 1].charStart
    ensures chunks[i].charEnd < chunks[i + 1].charEnd
    ensures chunks[i].page <= chunks[i + 1].page
  {
    ChunksAdvance(s, limit, overlap, ranges, i);
    TilesExtent(text, s, 0, |text|);
    assert ChunkOf(chunks[i], text, s, ranges[i], pages, sections);
    assert ChunkOf(chunks[i + 1], text, s, ranges[i + 1], pages, sections);
    PageMonotone(chunks[i].charStart, chunks[i + 1].charStart, pages);
  }

  lemma {:induction false} SpanIsChunked(s: seq<Span>, limit: int, overlap: int, ranges: seq<Range>, n: nat, k: nat)
    returns (i: nat)
    requires Packed(s, limit, overlap, ranges) && 0 < n <= |ranges| && k < ranges[n - 1].hi
    ensures i < n && ranges[i].lo <= k < ranges[i].hi
  {
    assert ChunkAt(s, limit, overlap, ranges, n - 1);
    if k >= ranges[n - 1].lo {
      i := n - 1;
    } else {
      i := SpanIsChunked(s, limit, overlap, ranges, n - 1, k);
    }
  }

  ghost predicate InChunk(s: seq<Span>, r: Range, at: nat) {
    exists k :: r.lo <= k < r.hi <= |s| && s[k].start <= at < s[k].end
  }

  /** Coverage end to end: a non-whitespace character of the document lies in a span of some chunk. */
  lemma CharacterIsChunked(text: string, s: seq<Span>, limit: int, overlap: int, ranges: seq<Range>, at: nat)
    requires Tiles(text, s, 0, |text|) && Packing(s, limit, overlap, ranges)
    requires at < |text| && !PySpace(text[at])
    ensures exists i :: 0 <= i < |ranges| && InChunk(s, ranges[i], at)
  {
    CoveredOnce(text, s, 0, |text|, at);
    var k :| 0 <= k < |s| && s[k].start <= at < s[k].end;
    var i := SpanIsChunked(s, limit, overlap, ranges, |ranges|, k);
    assert ChunkAt(s, limit, overlap, ranges, i);
    assert InChunk(s, ranges[i], at);
  }

  lemma {:induction false} OverlapSize(s: seq<Span>, lo: nat, hi: nat, limit: nat, overlap: int, from: nat)
    requires lo <= from <= hi <= |s| && AtMost(s, limit) && Positive(s)
    requires from < hi ==> Total(s, from + 1, hi) < overlap
    ensures Total(s, OverlapStart(s, lo, hi, overlap, from), hi) <= if overlap <= 0 then 0 else limit + overlap - 1
  {
    TotalGrows(s, from + 1, hi);
    if from > lo && Total(s, from, hi) < overlap {
      OverlapSize(s, lo, hi, limit, overlap, from - 1);
    } else if from < hi {
      TotalSplit(s, from, from + 1, hi);
    }
  }

  /** What a chunk inherits: nothing without overlap, otherwise at most limit + overlap - 1. */
  lemma CarriedSize(s: seq<Span>, limit: nat, overlap: int, ranges: seq<Range>, i: nat)
    requires Packing(s, limit, overlap, ranges) && AtMost(s, limit) && Positive(s) && i < |ranges|
    requires limit > 0
    ensures ChunkAt(s, limit, overlap, ranges, i)
    ensures Total(s, ranges[i].lo, FirstNew(ranges, i)) <= if overlap <= 0 then 0 else limit + overlap - 1
  {
    assert ChunkAt(s, limit, overlap, ranges, i);
    if i > 0 {
      assert ChunkAt(s, limit, overlap, ranges, i - 1);
      var p := ranges[i - 1];
      OverlapSize(s, p.lo, p.hi, limit, overlap, p.hi);
    }
  }

  /** Exactly which chunks exceed the limit: those whose inherited overlap leaves no room for
      their first new span.  Such a chunk adds that one span and no other. */
  lemma OversizedExactly(s: seq<Span>, limit: int, overlap: int, ranges: seq<Range>, i: nat)
    requires i < |ranges| && ChunkAt(s, limit, overlap, ranges, i) && Positive(s)
    ensures var first := FirstNew(ranges, i);
            && first < |s|
            && (Total(s, ranges[i].lo, ranges[i].hi) > limit
                <==> Total(s, ranges[i].lo, first) + s[first].Len() > limit)
            && (Total(s, ranges[i].lo, ranges[i].hi) > limit ==> ranges[i].hi == first + 1)
  {
    var r, first := ranges[i], FirstNew(ranges, i);
    var least := Total(s, r.lo, first) + s[first].Len();
    assert Total(s, r.lo, first + 1) == least;
    if r.hi > first + 1 {
      assert Total(s, r.lo, r.hi) == Total(s, r.lo, r.hi - 1) + s[r.hi - 1].Len() <= limit;
      TotalSplit(s, r.lo, first + 1, r.hi);
      TotalGrows(s, first + 1, r.hi);
      assert least <= limit;
    }
  }

  /** The true size bound: the limit without overlap, 2 * limit + overlap - 1 with it. */
  lemma ChunkSize(s: seq<Span>, limit: nat, overlap: int, ranges: seq<Range>, i: nat)
    requires Packing(s, limit, overlap, ranges) && AtMost(s, limit) && Positive(s) && i < |ranges|
    requires limit > 0
    ensures ChunkAt(s, limit, overlap, ranges, i)
    ensures Total(s, ranges[i].lo, ranges[i].hi) <= if overlap <= 0 then limit else 2 * limit + overlap - 1
  {
    CarriedSize(s, limit, overlap, ranges, i);
    OversizedExactly(s, limit, overlap, ranges, i);
    TotalSplit(s, ranges[i].lo, FirstNew(ranges, i), ranges[i].hi);
  }

  /** Spans that attain the bound: one of the limit, overlap - 1 of a single character, and another of
      the limit, with one character between neighbours. */
  function TightSpan(limit: nat, overlap: nat, k: nat): Span
    requires limit >= 1 && overlap >= 1
  {
    var start := if k == 0 then 0 else limit + 2 * k - 1;
    Span(start, start + if 1 <= k < overlap then 1 else limit)
  }

  ghost predicate Tight(limit: nat, overlap: nat, s: seq<Span>) {
    && limit >= 1 && overlap >= 1 && |s| == overlap + 1
    && forall k :: 0 <= k < |s| ==> s[k] == TightSpan(limit, overlap, k)
  }

  lemma {:induction false} TightTotals(limit: nat, overlap: nat, s: seq<Span>, h: nat)
    requires Tight(limit, overlap, s) && 1 <= h <= overlap
    ensures Total(s, 0, h) == limit + h - 1
  {
    if h > 1 { TightTotals(limit, overlap, s, h - 1); } else { assert Total(s, 0, 0) == 0; }
  }

  lemma {:induction false} TightTails(limit: nat, overlap: nat, s: seq<Span>, from: nat, h: nat)
    requires Tight(limit, overlap, s) && 1 <= from <= h <= overlap
    ensures Total(s, from, h) == h - from
  {
    if from < h { TightTails(limit, overlap, s, from, h - 1); }
  }

  /** Everything but the first span is shorter than the overlap, so all of it is kept. */
  lemma {:induction false} TightOverlaps(limit: nat, overlap: nat, s: seq<Span>, h: nat, from: nat)
    requires Tight(limit, overlap, s) && from <= h <= overlap
    ensures OverlapStart(s, 0, h, overlap, from) == 0
  {
    if from > 0 {
      TightTails(limit, overlap, s, from, h);
      TightOverlaps(limit, overlap, s, h, from - 1);
    }
  }

  lemma TightChunk(limit: nat, overlap: nat, s: seq<Span>, ranges: seq<Range>, i: nat)
    requires Tight(limit, overlap, s) && i <= overlap && |ranges| == overlap + 1
    requires forall j :: 0 <= j < |ranges| ==> ranges[j] == Range(0, j + 1)
    ensures ChunkAt(s, limit, overlap, ranges, i)
  {
    if i > 0 { TightOverlaps(limit, overlap, s, i, i); }
    if i < overlap { TightTotals(limit, overlap, s, i + 1); }
  }

  lemma TightShape(limit: nat, overlap: nat, s: seq<Span>)
    requires Tight(limit, overlap, s)
    ensures AtMost(s, limit) && Positive(s) && forall k :: 0 < k < |s| ==> s[k - 1].end < s[k].start
    ensures Total(s, 0, overlap + 1) == 2 * limit + overlap - 1
  {
    TightTotals(limit, overlap, s, overlap);
  }

  lemma TightPacking(limit: nat, overlap: nat, s: seq<Span>, ranges: seq<Range>)
    requires Tight(limit, overlap, s) && |ranges| == overlap + 1
    requires forall j :: 0 <= j < |ranges| ==> ranges[j] == Range(0, j + 1)
    ensures Packing(s, limit, overlap, ranges)
  {
    forall i | 0 <= i < |ranges| ensures ChunkAt(s, limit, overlap, ranges, i) {
      TightChunk(limit, overlap, s, ranges, i);
    }
  }

  /** The bound is attained for every limit and every positive overlap: the spans are apart and within
      the limit, and their last chunk has 2 * limit + overlap - 1 characters. */
  lemma ChunkSizeIsTight(limit: nat, overlap: nat) returns (s: seq<Span>, ranges: seq<Range>)
    requires limit >= 1 && overlap >= 1
    ensures AtMost(s, limit) && Positive(s) && forall k :: 0 < k < |s| ==> s[k - 1].end < s[k].start
    ensures Packing(s, limit, overlap, ranges) && ranges != []
    ensures var last := ranges[|ranges| - 1]; Total(s, last.lo, last.hi) == 2 * limit + overlap - 1
  {
    s := seq(overlap + 1, k requires 0 <= k <= overlap => TightSpan(limit, overlap, k));
    ranges := seq(overlap + 1, i requires 0 <= i <= overlap => Range(0, i + 1));
    TightShape(limit, overlap, s);
    TightPacking(limit, overlap, s, ranges);
  }

  /** The content adds one space between neighbouring spans ... */
  lemma {:induction false} ContentLength(text: string, s: seq<Span>)
    requires InText(text, s)
    ensures |Joined(text, s)| == Total(s, 0, |s|) + if s == [] then 0 else |s| - 1
  {
    if |s| > 1 {
      ContentLength(text, s[..|s| - 1]);
      SliceTotal(s, 0, |s| - 1, 0, |s| - 1);
      assert s[0..|s| - 1] == s[..|s| - 1];
    } else if |s| == 1 {
      assert Total(s, 0, 1) == Total(s, 0, 0) + s[0].Len();
    }
  }

  /** ... so a chunk's content exceeds the limit exactly when its characters and those spaces do. */
  lemma ContentExceeds(c: Chunk, text: string, s: seq<Span>, r: Range, pages: seq<int>, sections: seq<Section>,
                       limit: int)
    requires InText(text, s) && ChunkOf(c, text, s, r, pages, sections)
    ensures |c.content| > limit <==> Total(s, r.lo, r.hi) + (r.hi - r.lo - 1) > limit
  {
    ContentLength(text, s[r.lo..r.hi]);
    SliceTotal(s, r.lo, r.hi, 0, r.hi - r.lo);
  }

  /** Even without overlap the content can exceed the limit: "Ab. C" with a limit of 4. */
  lemma ContentExceedsWitness()
    ensures var s := [Span(0, 3), Span(4, 5)];
            InText("Ab. C", s) && Packing(s, 4, 0, [Range(0, 2)]) && AtMost(s, 4) && |Joined("Ab. C", s)| == 5
  {
    var s := [Span(0, 3), Span(4, 5)];
    assert Total(s, 0, 0) == 0 && Total(s, 0, 1) == 3 && Total(s, 0, 2) == 4;
    assert ChunkAt(s, 4, 0, [Range(0, 2)], 0);
    ContentLength("Ab. C", s);
  }

  // ---------- section lookup ----------

  datatype Heading = Heading(name: string, index: nat)

  /** The detected headings, sorted by position, turned into half-open sections. */
  method DetectSections(matches: seq<Heading>, length: nat) returns (sections: seq<Section>)
    requires HeadingsIn(matches, length)
    ensures |sections| == |matches|
    ensures forall k :: 0 <= k < |sections| ==> sections[k] == SectionAt(matches, length, k)
  {
    sections := [];
    for k := 0 to |matches|
      invariant |sections| == k && forall j :: 0 <= j < k ==> sections[j] == SectionAt(matches, length, j)
    {
      var next := if k < |matches| - 1 then matches[k + 1].index else length;
      sections := sections + [Section(matches[k].name, matches[k].index, next)];
    }
  }

  ghost predicate HeadingsIn(matches: seq<Heading>, length: nat) {
    && (forall j, k :: 0 <= j < k < |matches| ==> matches[j].index <= matches[k].index)
    && (forall k :: 0 <= k < |matches| ==> matches[k].index <= length)
  }

  ghost function SectionAt(matches: seq<Heading>, length: nat, k: nat): Section
    requires k < |matches|
  {
    Section(matches[k].name, matches[k].index, if k + 1 < |matches| then matches[k + 1].index else length)
  }

  /** An offset belongs to the last heading at or before it: coinciding headings yield the last. */
  lemma {:induction false} SectionIsLastHeading(matches: seq<Heading>, length: nat, sections: seq<Section>, at: nat,
                                                k: nat)
    requires HeadingsIn(matches, length) && |sections| == |matches| && k < |matches| && at < length
    requires forall j :: 0 <= j < |sections| ==> sections[j] == SectionAt(matches, length, j)
    requires matches[k].index <= at && (k + 1 < |matches| ==> at < matches[k + 1].index)
    ensures SectionOf(at, sections) == matches[k].name
  {
    assert sections[0] == SectionAt(matches, length, 0);
    if k > 0 {
      assert matches[1].index <= matches[k].index;
      var rest := matches[1..];
      forall j | 0 <= j < |sections| - 1 ensures sections[1..][j] == SectionAt(rest, length, j) {
        assert sections[j + 1] == SectionAt(matches, length, j + 1);
      }
      SectionIsLastHeading(rest, length, sections[1..], at, k - 1);
    }
  }
}
