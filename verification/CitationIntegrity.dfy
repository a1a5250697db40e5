/** Citation verification of a full-paper workspace: which citations are grounded, which sections fail,
    and the fingerprint of a round.  Extraction and source resolution are functions the scanner gives. */
module CitationIntegrity {
  import opened Strings
  import opened FullPaperJob

  // ---------- verifying one section ----------

  datatype Extracted = Extracted(text: string, paperId: string, authors: string, year: string, title: string)

  datatype Resolution = Unresolved | Resolved(byMarker: bool, confidence: real)

  datatype Outcome = Outcome(citationId: string, sectionId: string, marker: string, verified: bool, occurrence: nat)

  datatype Scanner = Scanner(
    strip: string -> string, extract: string -> seq<Extracted>,
    resolve: (Extracted, seq<string>) -> Resolution,
    citationId: (string, string, nat, string) -> string)

  const MIN_CONFIDENCE := 0.5

  /** The canonical rule: positional markers that resolve are verified, others need confidence. */
  predicate IsVerified(r: Resolution) {
    r.Resolved? && (r.byMarker || r.confidence >= MIN_CONFIDENCE)
  }

  predicate Usable(c: Extracted) {
    c.text != "" && (c.paperId != "" || c.authors != "" || c.year != "" || c.title != "")
  }

  function Kept(cs: seq<Extracted>): seq<Extracted> {
    if cs == [] then [] else Kept(cs[..|cs| - 1]) + if Usable(cs[|cs| - 1]) then [cs[|cs| - 1]] else []
  }

  function Occurrences(cs: seq<Extracted>, text: string): nat {
    if cs == [] then 0 else Occurrences(cs[..|cs| - 1], text) + if cs[|cs| - 1].text == text then 1 else 0
  }

  function OutcomeOf(sc: Scanner, sources: seq<string>, id: string, c: Extracted, occurrence: nat): Outcome {
    Outcome(sc.citationId(id, Trim(c.text), occurrence, c.paperId), id, Trim(c.text),
            IsVerified(sc.resolve(c, sources)), occurrence)
  }

  /** The outcomes of a section: its usable citations in order, each numbered by how many earlier
      ones carry the same marker. */
  function TextOutcomes(sc: Scanner, sources: seq<string>, id: string, kept: seq<Extracted>): (r: seq<Outcome>)
    ensures |r| == |kept|
  {
    seq(|kept|, k requires 0 <= k < |kept| =>
      OutcomeOf(sc, sources, id, kept[k], Occurrences(kept[..k], kept[k].text)))
  }

  function SectionOutcomes(sc: Scanner, sources: seq<string>, s: Section): seq<Outcome> {
    if Trim(sc.strip(s.content)) == "" then []
    else TextOutcomes(sc, sources, s.id, Kept(sc.extract(sc.strip(s.content))))
  }

  method VerifySectionText(sc: Scanner, sources: seq<string>, id: string, text: string) returns (out: seq<Outcome>)
    ensures out == TextOutcomes(sc, sources, id, Kept(sc.extract(text)))
  {
    var extracted := sc.extract(text);
    var seen: map<string, nat> := map[];
    ghost var kept: seq<Extracted> := [];
    out := [];
    for i := 0 to |extracted|
      invariant kept == Kept(extracted[..i]) && out == TextOutcomes(sc, sources, id, kept) && Counted(seen, kept)
    {
      var c := extracted[i];
      NextKept(extracted, i);
      if !Usable(c) { continue; }
      KeptSnoc(sc, sources, id, kept, c);
      CountedSnoc(seen, kept, c);
      var index := CountAt(seen, c.text);
      seen := seen[c.text := index + 1];
      out := out + [OutcomeOf(sc, sources, id, c, index)];
      kept := kept + [c];
    }
    assert extracted[..|extracted|] == extracted;
  }

  /** What an outcome says of its citation: verified when the resolver finds its source by marker, or finds it
      at all with a confidence of at least a half; which marker it is, in which section, after how many equal ones. */
  lemma OutcomesAre(sc: Scanner, sources: seq<string>, id: string, kept: seq<Extracted>, k: nat)
    requires k < |kept|
    ensures var o, c := TextOutcomes(sc, sources, id, kept)[k], kept[k];
            && o.sectionId == id && o.marker == Trim(c.text) && o.occurrence == Occurrences(kept[..k], c.text)
            && o.citationId == sc.citationId(id, Trim(c.text), o.occurrence, c.paperId)
            && (o.verified <==> match sc.resolve(c, sources)
                                case Unresolved => false
                                case Resolved(byMarker, confidence) => byMarker || !(confidence < 0.5))
  {
  }

  /** A citation counts when it has a marker and at least one thing to resolve it by. */
  lemma {:induction false} KeptExactly(cs: seq<Extracted>, c: Extracted)
    ensures c in Kept(cs) <==> c in cs && c.text != "" && !(c.paperId == c.authors == c.year == c.title == "")
  {
    if cs != [] {
      KeptExactly(cs[..|cs| - 1], c);
      assert cs == cs[..|cs| - 1] + [cs[|cs| - 1]];
    }
  }

  ghost function Markers(cs: seq<Extracted>): seq<string> { seq(|cs|, i requires 0 <= i < |cs| => cs[i].text) }

  /** Equal markers are counted. */
  lemma {:induction false} OccurrencesAre(cs: seq<Extracted>, text: string)
    ensures Occurrences(cs, text) == multiset(Markers(cs))[text]
  {
    if cs != [] {
      OccurrencesAre(cs[..|cs| - 1], text);
      assert Markers(cs) == Markers(cs[..|cs| - 1]) + [cs[|cs| - 1].text];
    }
  }

  /** A lookup in a Go map of counters. */
  function CountAt(seen: map<string, nat>, text: string): nat { if text in seen then seen[text] else 0 }

  ghost predicate Counted(seen: map<string, nat>, kept: seq<Extracted>) {
    forall t :: CountAt(seen, t) == Occurrences(kept, t)
  }

  lemma CountedSnoc(seen: map<string, nat>, kept: seq<Extracted>, c: Extracted)
    requires Counted(seen, kept)
    ensures Counted(seen[c.text := CountAt(seen, c.text) + 1], kept + [c])
  {
    assert (kept + [c])[..|kept|] == kept;
    forall t ensures CountAt(seen[c.text := CountAt(seen, c.text) + 1], t) == Occurrences(kept + [c], t) {
      assert CountAt(seen, t) == Occurrences(kept, t);
    }
  }

  lemma NextKept(cs: seq<Extracted>, i: nat)
    requires i < |cs|
    ensures Kept(cs[..i + 1]) == if Usable(cs[i]) then Kept(cs[..i]) + [cs[i]] else Kept(cs[..i])
  {
    assert cs[..i + 1][..i] == cs[..i];
  }

  lemma KeptSnoc(sc: Scanner, sources: seq<string>, id: string, kept: seq<Extracted>, c: Extracted)
    ensures TextOutcomes(sc, sources, id, kept + [c])
            == TextOutcomes(sc, sources, id, kept) + [OutcomeOf(sc, sources, id, c, Occurrences(kept, c.text))]
  {
    var more := kept + [c];
    assert more[..|kept|] == kept;
    forall k | 0 <= k < |kept| ensures more[..k] == kept[..k] && more[k] == kept[k] {}
  }

  lemma {:induction false} OccurrencesGrow(cs: seq<Extracted>, j: nat, k: nat, text: string)
    requires j <= k <= |cs|
    ensures Occurrences(cs[..j], text) <= Occurrences(cs[..k], text)
  {
    if j < k {
      OccurrencesGrow(cs, j, k - 1, text);
      assert cs[..k][..k - 1] == cs[..k - 1];
    }
  }

  /** Marker and occurrence number together identify a citation within its section. */
  lemma OccurrencesIdentify(kept: seq<Extracted>, j: nat, k: nat)
    requires j < k < |kept| && kept[j].text == kept[k].text
    ensures Occurrences(kept[..j], kept[j].text) < Occurrences(kept[..k], kept[k].text)
  {
    assert kept[..j + 1][..j] == kept[..j];
    OccurrencesGrow(kept, j + 1, k, kept[k].text);
  }

  // ---------- verifying a workspace ----------

  /** The sources of the first source bundle that has any. */
  function SourcesOf(artifacts: seq<Artifact>): seq<string> {
    if artifacts == [] then []
    else
      var a := artifacts[0];
      if a.kind == SourceBundle && a.content.Sources? && a.content.sources != [] then a.content.sources
      else SourcesOf(artifacts[1..])
  }

  ghost predicate GivesSources(a: Artifact) {
    a.kind == SourceBundle && match a.content case Sources(list) => list != [] case _ => false
  }

  /** The sources are those of the first bundle that has any, and none without one. */
  lemma {:induction false} SourcesAreFirst(artifacts: seq<Artifact>)
    ensures (forall i :: 0 <= i < |artifacts| ==> !GivesSources(artifacts[i])) ==> SourcesOf(artifacts) == []
    ensures forall i :: 0 <= i < |artifacts| && GivesSources(artifacts[i])
                     && (forall j :: 0 <= j < i ==> !GivesSources(artifacts[j]))
              ==> SourcesOf(artifacts) == artifacts[i].content.sources
  {
    if artifacts != [] {
      var rest := artifacts[1..];
      SourcesAreFirst(rest);
      assert forall i :: 0 <= i < |rest| ==> rest[i] == artifacts[i + 1];
      forall i | 0 <= i < |artifacts| && GivesSources(artifacts[i])
                 && (forall j :: 0 <= j < i ==> !GivesSources(artifacts[j]))
        ensures SourcesOf(artifacts) == artifacts[i].content.sources
      {
        if i > 0 { assert rest[i - 1] == artifacts[i] && !GivesSources(artifacts[0]); }
      }
    }
  }

  function DraftOutcomes(sc: Scanner, sources: seq<string>, drafts: seq<Section>): seq<Outcome> {
    if drafts == [] then []
    else DraftOutcomes(sc, sources, drafts[..|drafts| - 1]) + SectionOutcomes(sc, sources, drafts[|drafts| - 1])
  }

  function Verify(sc: Scanner, w: Workspace): seq<Outcome> { DraftOutcomes(sc, SourcesOf(w.artifacts), w.drafts) }

  method VerifyWorkspace(sc: Scanner, w: Workspace) returns (out: seq<Outcome>)
    ensures out == Verify(sc, w)
  {
    var sources := SourcesOf(w.artifacts);
    out := [];
    for i := 0 to |w.drafts|
      invariant out == DraftOutcomes(sc, sources, w.drafts[..i])
    {
      NextDraft(sc, sources, w.drafts, i);
      var text := sc.strip(w.drafts[i].content);
      if Trim(text) == "" { continue; }
      var more := VerifySectionText(sc, sources, w.drafts[i].id, text);
      out := out + more;
    }
    assert w.drafts[..|w.drafts|] == w.drafts;
  }

  lemma NextDraft(sc: Scanner, sources: seq<string>, drafts: seq<Section>, i: nat)
    requires i < |drafts|
    ensures var more := SectionOutcomes(sc, sources, drafts[i]);
            DraftOutcomes(sc, sources, drafts[..i + 1])
            == if more == [] then DraftOutcomes(sc, sources, drafts[..i])
               else DraftOutcomes(sc, sources, drafts[..i]) + more
  {
    assert drafts[..i + 1][..i] == drafts[..i];
  }

  datatype Summary = Summary(total: nat, verified: nat, ungrounded: int)

  function VerifiedCount(os: seq<Outcome>): nat {
    if os == [] then 0 else VerifiedCount(os[..|os| - 1]) + if os[|os| - 1].verified then 1 else 0
  }

  function Unverified(os: seq<Outcome>): seq<Outcome> {
    if os == [] then [] else Unverified(os[..|os| - 1]) + if os[|os| - 1].verified then [] else [os[|os| - 1]]
  }

  function Summarize(os: seq<Outcome>): Summary { Summary(|os|, VerifiedCount(os), |os| - VerifiedCount(os)) }

  method SummarizeOutcomes(os: seq<Outcome>) returns (s: Summary, ungrounded: seq<Outcome>)
    ensures s == Summarize(os) && ungrounded == Unverified(os)
  {
    var verified := 0;
    ungrounded := [];
    for i := 0 to |os|
      invariant verified == VerifiedCount(os[..i]) && ungrounded == Unverified(os[..i])
    {
      assert os[..i + 1][..i] == os[..i];
      if os[i].verified { verified := verified + 1; } else { ungrounded := ungrounded + [os[i]]; }
    }
    assert os[..|os|] == os;
    s := Summary(|os|, verified, |os| - verified);
  }

  /** The count and the list agree: nothing is ungrounded exactly when every citation is verified. */
  lemma {:induction false} UngroundedAgrees(os: seq<Outcome>)
    ensures Summarize(os).ungrounded == |Unverified(os)|
    ensures forall o :: o in Unverified(os) <==> o in os && !o.verified
  {
    if os != [] {
      UngroundedAgrees(os[..|os| - 1]);
      assert os == os[..|os| - 1] + [os[|os| - 1]];
    }
  }

  function Part(o: Outcome): string { o.sectionId + ":" + o.citationId }

  function JoinParts(os: seq<Outcome>): string {
    if os == [] then "" else if |os| == 1 then Part(os[0]) else JoinParts(os[..|os| - 1]) + "|" + Part(os[|os| - 1])
  }

  function Fingerprint(os: seq<Outcome>): string { if os == [] then "clean" else JoinParts(Unverified(os)) }

  /** So a first round that finds something ungrounded is never taken for a repeat. */
  lemma FingerprintNotEmpty(os: seq<Outcome>)
    requires Summarize(os).ungrounded != 0
    ensures Fingerprint(os) != ""
  {
    UngroundedAgrees(os);
    var u := Unverified(os);
    assert Part(u[|u| - 1])[|u[|u| - 1].sectionId|] == ':';
  }

  // ---------- what a fingerprint tells apart ----------

  ghost predicate Plain(text: string) { ':' !in text && '|' !in text }

  /** The ids of some outcomes have no separator in them. */
  ghost predicate PlainIds(os: seq<Outcome>) {
    forall i :: 0 <= i < |os| ==> Plain(os[i].sectionId) && Plain(os[i].citationId)
  }

  /** Which citations of which sections. */
  ghost function Pairs(os: seq<Outcome>): seq<(string, string)> {
    seq(|os|, i requires 0 <= i < |os| => (os[i].sectionId, os[i].citationId))
  }

  /** Nothing after the last separator is one. */
  lemma LastSeparator(a: string, p: string, c: char, all: string)
    requires all == a + [c] + p && c !in p
    ensures all[|a|] == c && all[..|a|] == a && all[|a| + 1..] == p
    ensures forall i :: |a| < i < |all| ==> all[i] != c
  {
    forall i | |a| < i < |all| ensures all[i] != c { assert all[i] == p[i - |a| - 1]; }
  }

  /** Text split at its last separator. */
  lemma SplitAtLast(a: string, p: string, b: string, q: string, c: char)
    requires a + [c] + p == b + [c] + q && c !in p && c !in q
    ensures a == b && p == q
  {
    LastSeparator(a, p, c, a + [c] + p);
    LastSeparator(b, q, c, a + [c] + p);
    assert |a| == |b|;
  }

  lemma PartIsPlain(o: Outcome)
    requires Plain(o.sectionId) && Plain(o.citationId)
    ensures '|' !in Part(o)
  {
  }

  lemma PartsDiffer(o: Outcome, other: Outcome)
    requires Plain(o.citationId) && Plain(other.citationId) && Part(o) == Part(other)
    ensures o.sectionId == other.sectionId && o.citationId == other.citationId
  {
    assert Part(o) == o.sectionId + [':'] + o.citationId;
    assert Part(other) == other.sectionId + [':'] + other.citationId;
    SplitAtLast(o.sectionId, o.citationId, other.sectionId, other.citationId, ':');
  }

  lemma JoinLast(os: seq<Outcome>)
    requires |os| > 1
    ensures JoinParts(os) == JoinParts(os[..|os| - 1]) + ['|'] + Part(os[|os| - 1])
  {
  }

  /** Only more than one part needs a bar. */
  lemma BarsSeparate(os: seq<Outcome>)
    requires os != [] && PlainIds(os)
    ensures '|' in JoinParts(os) <==> |os| > 1
  {
    PartIsPlain(os[0]);
    if |os| > 1 { JoinLast(os); }
  }

  lemma PairsSnoc(os: seq<Outcome>)
    requires os != []
    ensures Pairs(os) == Pairs(os[..|os| - 1]) + [(os[|os| - 1].sectionId, os[|os| - 1].citationId)]
  {
  }

  lemma {:induction false} JoinDecides(a: seq<Outcome>, b: seq<Outcome>)
    requires a != [] && b != [] && PlainIds(a) && PlainIds(b) && JoinParts(a) == JoinParts(b)
    ensures Pairs(a) == Pairs(b)
  {
    var x, y := a[|a| - 1], b[|b| - 1];
    PartIsPlain(x);
    PartIsPlain(y);
    BarsSeparate(a);
    BarsSeparate(b);
    if |a| > 1 {
      JoinLast(a);
      JoinLast(b);
      SplitAtLast(JoinParts(a[..|a| - 1]), Part(x), JoinParts(b[..|b| - 1]), Part(y), '|');
      JoinDecides(a[..|a| - 1], b[..|b| - 1]);
    }
    PartsDiffer(x, y);
    PairsSnoc(a);
    PairsSnoc(b);
  }

  /** When no id contains a separator, two verifications with something ungrounded have one fingerprint if and
      only if the same citations of the same sections are ungrounded, in the same order. */
  lemma FingerprintDecides(a: seq<Outcome>, b: seq<Outcome>)
    requires Summarize(a).ungrounded != 0 && Summarize(b).ungrounded != 0
    requires PlainIds(Unverified(a)) && PlainIds(Unverified(b))
    ensures Fingerprint(a) == Fingerprint(b) <==> Pairs(Unverified(a)) == Pairs(Unverified(b))
  {
    UngroundedAgrees(a);
    UngroundedAgrees(b);
    if Fingerprint(a) == Fingerprint(b) { JoinDecides(Unverified(a), Unverified(b)); }
    if Pairs(Unverified(a)) == Pairs(Unverified(b)) { SamePairs(Unverified(a), Unverified(b)); }
  }

  lemma {:induction false} SamePairs(a: seq<Outcome>, b: seq<Outcome>)
    requires Pairs(a) == Pairs(b)
    ensures JoinParts(a) == JoinParts(b)
  {
    assert |a| == |Pairs(a)| == |b|;
    if a != [] {
      assert Pairs(a[..|a| - 1]) == Pairs(a)[..|a| - 1] && Pairs(b[..|b| - 1]) == Pairs(b)[..|b| - 1];
      SamePairs(a[..|a| - 1], b[..|b| - 1]);
      assert Pairs(a)[|a| - 1] == (a[|a| - 1].sectionId, a[|a| - 1].citationId);
      assert Pairs(b)[|b| - 1] == (b[|b| - 1].sectionId, b[|b| - 1].citationId);
    }
  }

  /** With separators in the ids it cannot: one citation and two can have the same fingerprint. */
  lemma FingerprintCanCollide() returns (a: seq<Outcome>, b: seq<Outcome>)
    ensures Fingerprint(a) == Fingerprint(b) && Summarize(a).ungrounded == 1 && Summarize(b).ungrounded == 2
  {
    a := [Outcome("b|c:d", "a", "", false, 0)];
    b := [Outcome("b", "a", "", false, 0), Outcome("d", "c", "", false, 0)];
    assert a[..0] == [] && b[..1][..0] == [];
    assert Unverified(b[..1]) == b[..1] && Unverified(b) == b && Unverified(a) == a;
    assert VerifiedCount(b[..1]) == 0 && VerifiedCount(b) == 0 && VerifiedCount(a) == 0;
    JoinLast(b);
    assert JoinParts(b[..1]) == "a:b" && JoinParts(b) == "a:b|c:d" == Part(a[0]);
  }

  /** Ids of the sections with an unverified citation, each once, in order. */
  function FailingIds(os: seq<Outcome>): seq<string> {
    if os == [] then []
    else
      var last := os[|os| - 1];
      var front := FailingIds(os[..|os| - 1]);
      if last.verified || Trim(last.sectionId) == "" || last.sectionId in front then front else front + [last.sectionId]
  }

  method FailingSectionIds(os: seq<Outcome>) returns (out: seq<string>)
    ensures out == FailingIds(os)
  {
    var seen := {};
    out := [];
    for i := 0 to |os|
      invariant out == FailingIds(os[..i]) && forall v :: v in seen <==> v in out
    {
      assert os[..i + 1][..i] == os[..i];
      if os[i].verified || Trim(os[i].sectionId) == "" { continue; }
      if os[i].sectionId in seen { continue; }
      seen := seen + {os[i].sectionId};
      out := out + [os[i].sectionId];
    }
    assert os[..|os|] == os;
  }

  lemma {:induction false} FailingIdsFacts(os: seq<Outcome>)
    ensures NoDuplicates(FailingIds(os))
    ensures forall id :: id in FailingIds(os) <==>
              Trim(id) != "" && exists i :: 0 <= i < |os| && !os[i].verified && os[i].sectionId == id
  {
    if os != [] {
      var front, last := os[..|os| - 1], os[|os| - 1];
      FailingIdsFacts(front);
      forall id
        ensures id in FailingIds(os) <==>
                Trim(id) != "" && exists i :: 0 <= i < |os| && !os[i].verified && os[i].sectionId == id
      {
        if id in FailingIds(front) {
          var i :| 0 <= i < |front| && !front[i].verified && front[i].sectionId == id;
          assert os[i] == front[i];
        }
        if i :| 0 <= i < |os| && !os[i].verified && os[i].sectionId == id {
          assert i < |front| ==> front[i] == os[i];
        }
      }
    }
  }
}
