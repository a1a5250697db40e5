/** The evidence dossier: claim packets sorted into four lists of findings, and the verified ones
    merged into conclusions.  The merge loop is proved to be a group-by. */
module EvidenceDossier {
  import opened Strings
  import opened Wrappers

  type Score = Option<real>

  datatype Packet = Packet(id: string, claim: string, contradictions: seq<string>, verifierStatus: string,
                           spanSources: seq<string>, confidence: Score)

  datatype Status = Verified | Contradictory | Unsupported | Tentative

  /** `rawId` and `rawClaim` are the packet's own texts, `id` and `claim` what merging reads: trimmed. */
  datatype Finding = Finding(rawId: string, rawClaim: string, id: string, claim: string, status: Status,
                             sourceIds: seq<string>, sourceTitles: seq<string>, score: Score)

  datatype Conclusion = Conclusion(claim: string, findingIds: seq<string>, sourceIds: seq<string>,
                                   sourceTitles: seq<string>, score: Score)

  datatype Dossier = Dossier(verified: seq<Finding>, tentative: seq<Finding>, contradictory: seq<Finding>,
                             unsupported: seq<Finding>, conclusions: seq<Conclusion>)

  // ---------- one packet ----------

  /** A contradiction outranks the verifier's status. */
  function StatusOf(p: Packet): Status {
    if exists c :: c in p.contradictions && Trim(c) != "" then Contradictory
    else if Trim(p.verifierStatus) == "verified" then Verified
    else if Trim(p.verifierStatus) == "rejected" then Unsupported
    else Tentative
  }

  function TitlesFor(ids: seq<string>, titles: map<string, string>): seq<string> {
    if ids == [] then []
    else TitlesFor(ids[..|ids| - 1], titles)
         + if ids[|ids| - 1] in titles && titles[ids[|ids| - 1]] != "" then [titles[ids[|ids| - 1]]] else []
  }

  function FindingOf(p: Packet, titles: map<string, string>): Finding {
    var ids := Unique(p.spanSources);
    Finding(p.id, p.claim, Trim(p.id), Trim(p.claim), StatusOf(p), ids, TitlesFor(ids, titles), p.confidence)
  }

  // ---------- the group-by the conclusions should be ----------

  function FindingsWith(packets: seq<Packet>, status: Status, titles: map<string, string>): seq<Finding> {
    if packets == [] then []
    else
      var last := packets[|packets| - 1];
      FindingsWith(packets[..|packets| - 1], status, titles)
        + if StatusOf(last) == status then [FindingOf(last, titles)] else []
  }

  ghost function Claims(fs: seq<Finding>): (r: seq<string>)
    ensures |r| == |fs| && forall i :: 0 <= i < |r| ==> r[i] == fs[i].claim
  {
    seq(|fs|, i requires 0 <= i < |fs| => fs[i].claim)
  }

  /** The findings that make one claim, in order. */
  ghost function Group(fs: seq<Finding>, claim: string): seq<Finding> {
    if fs == [] then []
    else Group(fs[..|fs| - 1], claim) + if fs[|fs| - 1].claim == claim then [fs[|fs| - 1]] else []
  }

  ghost function Ids(fs: seq<Finding>): seq<string> {
    if fs == [] then [] else Ids(fs[..|fs| - 1]) + [fs[|fs| - 1].id]
  }

  ghost function Sources(fs: seq<Finding>): seq<string> {
    if fs == [] then [] else Sources(fs[..|fs| - 1]) + fs[|fs| - 1].sourceIds
  }

  function MaxScore(a: Score, b: Score): Score {
    match (a, b)
    case (Some(x), Some(y)) => Some(if y > x then y else x)
    case (None, y) => y
    case (x, None) => x
  }

  ghost function TopScore(fs: seq<Finding>): Score {
    if fs == [] then None else MaxScore(TopScore(fs[..|fs| - 1]), fs[|fs| - 1].score)
  }

  ghost function ConclusionOf(fs: seq<Finding>, claim: string, titles: map<string, string>): Conclusion {
    ConclusionFrom(Group(fs, claim), claim, titles)
  }

  ghost function ConclusionFrom(group: seq<Finding>, claim: string, titles: map<string, string>): Conclusion {
    var ids := Unique(Sources(group));
    Conclusion(claim, Unique(Ids(group)), ids, TitlesFor(ids, titles), TopScore(group))
  }

  /** One conclusion per distinct non-blank claim, in the order claims first appear. */
  ghost function Conclusions(fs: seq<Finding>, titles: map<string, string>): (r: seq<Conclusion>) {
    var claims := Dedup(Claims(fs));
    seq(|claims|, i requires 0 <= i < |claims| => ConclusionOf(fs, claims[i], titles))
  }

  // ---------- the merge loop ----------

  /** The index and the order list after the findings `fs`. */
  ghost predicate Indexed(fs: seq<Finding>, titles: map<string, string>, index: map<string, Conclusion>,
                          order: seq<string>) {
    && order == Dedup(Claims(fs))
    && (forall c :: c in index <==> c in order)
    && (forall c :: c in index ==> index[c] == ConclusionOf(fs, c, titles))
  }

  /** A finding merged into the index: the body of the source's loop. */
  method MergeConclusion(index: map<string, Conclusion>, order: seq<string>, f: Finding, titles: map<string, string>,
                         ghost fs: seq<Finding>)
    returns (index': map<string, Conclusion>, order': seq<string>)
    requires Indexed(fs, titles, index, order)
    requires Unique(f.sourceIds) == f.sourceIds && f.sourceTitles == TitlesFor(f.sourceIds, titles)
    requires Trim(f.id) == f.id
    ensures Indexed(fs + [f], titles, index', order')
  {
    index', order' := index, order;
    if f.claim == "" {
      BlankClaim(fs, f, titles, index, order);
      return;
    }
    if f.claim in index {
      var existing := index[f.claim];
      var findingIds := UniqueStrings(existing.findingIds + [f.id]);
      var sourceIds := UniqueStrings(existing.sourceIds + f.sourceIds);
      MergeIsConclusion(fs, f, titles);
      index' := index[f.claim := Conclusion(f.claim, findingIds, sourceIds, TitlesFor(sourceIds, titles),
                                            MaxScore(existing.score, f.score))];
    } else {
      var findingIds := UniqueStrings([f.id]);
      FirstOfGroup(fs, f);
      FirstIsConclusion(f, titles);
      index' := index[f.claim := Conclusion(f.claim, findingIds, f.sourceIds, TitlesFor(f.sourceIds, titles), f.score)];
      order' := order + [f.claim];
    }
    Reindexed(fs, f, titles, index, order, index'[f.claim]);
  }

  lemma BlankClaim(fs: seq<Finding>, f: Finding, titles: map<string, string>, index: map<string, Conclusion>,
                   order: seq<string>)
    requires Indexed(fs, titles, index, order) && f.claim == ""
    ensures Indexed(fs + [f], titles, index, order)
  {
    ClaimsSnoc(fs, f);
    DedupMembers(Claims(fs), "");
    OthersKeep(fs, f, titles, index);
  }

  lemma Reindexed(fs: seq<Finding>, f: Finding, titles: map<string, string>, index: map<string, Conclusion>,
                  order: seq<string>, entry: Conclusion)
    requires Indexed(fs, titles, index, order) && f.claim != ""
    requires entry == ConclusionOf(fs + [f], f.claim, titles)
    ensures Indexed(fs + [f], titles, index[f.claim := entry], Add(order, f.claim))
  {
    ClaimsSnoc(fs, f);
    OthersKeep(fs, f, titles, index);
    ReindexedTo(fs + [f], f.claim, titles, index, order, entry);
  }

  lemma ReindexedTo(more: seq<Finding>, claim: string, titles: map<string, string>, index: map<string, Conclusion>,
                    order: seq<string>, entry: Conclusion)
    requires (forall c :: c in index <==> c in order) && claim != ""
    requires Dedup(Claims(more)) == Add(order, claim)
    requires forall c :: c in index && c != claim ==> index[c] == ConclusionOf(more, c, titles)
    requires entry == ConclusionOf(more, claim, titles)
    ensures Indexed(more, titles, index[claim := entry], Add(order, claim))
  {
    KeysFollowOrder(index, order, claim, entry);
  }

  lemma KeysFollowOrder(index: map<string, Conclusion>, order: seq<string>, claim: string, entry: Conclusion)
    requires claim != "" && forall c :: c in index <==> c in order
    ensures forall c :: c in index[claim := entry] <==> c in Add(order, claim)
  {
  }

  lemma ClaimsSnoc(fs: seq<Finding>, f: Finding)
    ensures Dedup(Claims(fs + [f])) == Add(Dedup(Claims(fs)), f.claim)
  {
    assert Claims(fs + [f])[..|fs|] == Claims(fs);
  }

  lemma ConclusionKept(fs: seq<Finding>, f: Finding, titles: map<string, string>, claim: string)
    requires claim != f.claim
    ensures ConclusionOf(fs + [f], claim, titles) == ConclusionOf(fs, claim, titles)
  {
    assert Group(fs, claim) + [] == Group(fs, claim);
  }

  lemma OthersKeep(fs: seq<Finding>, f: Finding, titles: map<string, string>, index: map<string, Conclusion>)
    ensures forall c :: c in index && c != f.claim ==> ConclusionOf(fs + [f], c, titles) == ConclusionOf(fs, c, titles)
  {
    forall c | c in index && c != f.claim
      ensures ConclusionOf(fs + [f], c, titles) == ConclusionOf(fs, c, titles)
    {
      ConclusionKept(fs, f, titles, c);
    }
  }

  /** Merging into an existing entry. */
  lemma MergeIsConclusion(fs: seq<Finding>, f: Finding, titles: map<string, string>)
    ensures var prior := ConclusionOf(fs, f.claim, titles);
            var ids := Unique(prior.sourceIds + f.sourceIds);
            ConclusionOf(fs + [f], f.claim, titles) ==
              Conclusion(f.claim, Unique(prior.findingIds + [f.id]), ids, TitlesFor(ids, titles),
                         MaxScore(prior.score, f.score))
  {
    var group := Group(fs, f.claim);
    assert (group + [f])[..|group|] == group;
    UniqueMerge(Ids(group), [f.id]);
    UniqueMerge(Sources(group), f.sourceIds);
  }

  lemma {:induction false} NoGroup(fs: seq<Finding>, claim: string)
    requires claim !in Claims(fs)
    ensures Group(fs, claim) == []
  {
    if fs != [] {
      assert Claims(fs) == Claims(fs[..|fs| - 1]) + [fs[|fs| - 1].claim];
      NoGroup(fs[..|fs| - 1], claim);
    }
  }

  /** Creating a new entry: the conclusion of one finding. */
  lemma FirstIsConclusion(f: Finding, titles: map<string, string>)
    requires Unique(f.sourceIds) == f.sourceIds
    ensures ConclusionFrom([f], f.claim, titles) ==
              Conclusion(f.claim, Unique([f.id]), f.sourceIds, TitlesFor(f.sourceIds, titles), f.score)
  {
    var group := [f];
    assert group[..0] == [];
    assert Ids(group) == [f.id];
    assert Sources(group) == [] + f.sourceIds == f.sourceIds;
    assert TopScore(group) == MaxScore(None, f.score) == f.score;
  }

  /** A claim not seen before has a group of its own. */
  lemma FirstOfGroup(fs: seq<Finding>, f: Finding)
    requires f.claim != "" && f.claim !in Dedup(Claims(fs))
    ensures Group(fs + [f], f.claim) == [f]
  {
    DedupMembers(Claims(fs), f.claim);
    NoGroup(fs, f.claim);
  }

  /** The dossier: four lists that split the packets by status, and the grouped conclusions. */
  method BuildDossier(packets: seq<Packet>, titles: map<string, string>) returns (d: Dossier)
    ensures d.verified == FindingsWith(packets, Verified, titles)
    ensures d.tentative == FindingsWith(packets, Tentative, titles)
    ensures d.contradictory == FindingsWith(packets, Contradictory, titles)
    ensures d.unsupported == FindingsWith(packets, Unsupported, titles)
    ensures d.conclusions == Conclusions(d.verified, titles)
  {
    var verified, tentative, contradictory, unsupported := [], [], [], [];
    var index: map<string, Conclusion>, order: seq<string> := map[], [];
    for i := 0 to |packets|
      invariant verified == FindingsWith(packets[..i], Verified, titles)
      invariant tentative == FindingsWith(packets[..i], Tentative, titles)
      invariant contradictory == FindingsWith(packets[..i], Contradictory, titles)
      invariant unsupported == FindingsWith(packets[..i], Unsupported, titles)
      invariant Indexed(verified, titles, index, order)
    {
      var finding := FindingOf(packets[i], titles);
      FindingsSnoc(packets, i, titles);
      match StatusOf(packets[i])
      case Verified =>
        FindingIsClean(packets[i], titles);
        index, order := MergeConclusion(index, order, finding, titles, verified);
        verified := verified + [finding];
      case Contradictory => contradictory := contradictory + [finding];
      case Unsupported => unsupported := unsupported + [finding];
      case Tentative => tentative := tentative + [finding];
    }
    assert packets[..|packets|] == packets;
    ghost var goal := IndexedGives(index, order, titles, verified);
    var conclusions := CollectConclusions(index, order, goal);
    d := Dossier(verified, tentative, contradictory, unsupported, conclusions);
  }

  lemma FindingsSnoc(packets: seq<Packet>, i: nat, titles: map<string, string>)
    requires i < |packets|
    ensures forall status :: FindingsWith(packets[..i + 1], status, titles) ==
              FindingsWith(packets[..i], status, titles)
              + if StatusOf(packets[i]) == status then [FindingOf(packets[i], titles)] else []
  {
    assert packets[..i + 1][..i] == packets[..i];
  }

  lemma IndexedGives(index: map<string, Conclusion>, order: seq<string>, titles: map<string, string>, fs: seq<Finding>)
    returns (goal: seq<Conclusion>)
    requires Indexed(fs, titles, index, order)
    ensures goal == Conclusions(fs, titles) && |goal| == |order|
    ensures forall i :: 0 <= i < |order| ==> order[i] in index && index[order[i]] == goal[i]
  {
    goal := Conclusions(fs, titles);
    forall i | 0 <= i < |order| ensures order[i] in index && index[order[i]] == goal[i] { assert order[i] in order; }
  }

  method CollectConclusions(index: map<string, Conclusion>, order: seq<string>, ghost goal: seq<Conclusion>)
    returns (conclusions: seq<Conclusion>)
    requires |goal| == |order| && forall i :: 0 <= i < |order| ==> order[i] in index && index[order[i]] == goal[i]
    ensures conclusions == goal
  {
    conclusions := [];
    for i := 0 to |order|
      invariant conclusions == goal[..i]
    {
      conclusions := conclusions + [index[order[i]]];
    }
  }

  lemma FindingIsClean(p: Packet, titles: map<string, string>)
    ensures var f := FindingOf(p, titles); Unique(f.sourceIds) == f.sourceIds && Trim(f.id) == f.id
  {
    UniqueTwice(p.spanSources);
    StripTwice(p.id, GoSpace);
  }

  // ---------- what the group-by means ----------

  /** The four lists split the packets: a packet's finding is in the list of its own status. */
  lemma {:induction false} FindingsSplit(packets: seq<Packet>, titles: map<string, string>)
    ensures multiset(FindingsWith(packets, Verified, titles)) + multiset(FindingsWith(packets, Contradictory, titles))
            + multiset(FindingsWith(packets, Unsupported, titles)) + multiset(FindingsWith(packets, Tentative, titles))
            == multiset(AllFindings(packets, titles))
  {
    if packets != [] { FindingsSplit(packets[..|packets| - 1], titles); }
  }

  ghost function AllFindings(packets: seq<Packet>, titles: map<string, string>): seq<Finding> {
    if packets == [] then []
    else AllFindings(packets[..|packets| - 1], titles) + [FindingOf(packets[|packets| - 1], titles)]
  }

  /** Where a packet goes: to the contradictory findings when it names a contradiction, and otherwise by its
      verifier's word; with its own id, claim and confidence. */
  lemma PacketGoes(packets: seq<Packet>, titles: map<string, string>, k: nat)
    requires k < |packets|
    ensures var p := packets[k];
            var contradicted := exists c :: 0 <= c < |p.contradictions| && Trim(p.contradictions[c]) != "";
            var status := if contradicted then Contradictory
                          else match Trim(p.verifierStatus)
                               case "verified" => Verified
                               case "rejected" => Unsupported
                               case _ => Tentative;
            exists f :: f in FindingsWith(packets, status, titles) && f.status == status
                     && f.rawId == p.id && f.id == Trim(p.id) && f.rawClaim == p.claim && f.claim == Trim(p.claim)
                     && f.sourceIds == Unique(p.spanSources) && f.score == p.confidence
  {
    var p := packets[k];
    if c :| c in p.contradictions && Trim(c) != "" {
      var j :| 0 <= j < |p.contradictions| && p.contradictions[j] == c;
    }
    FindingIsIn(packets, titles, k);
  }

  lemma {:induction false} FindingIsIn(packets: seq<Packet>, titles: map<string, string>, k: nat)
    requires k < |packets|
    ensures FindingOf(packets[k], titles) in FindingsWith(packets, StatusOf(packets[k]), titles)
  {
    if k < |packets| - 1 { FindingIsIn(packets[..|packets| - 1], titles, k); }
  }

  /** The titles shown for some sources: the known, non-empty ones, in the order of the sources. */
  lemma {:induction false} TitlesAppend(a: seq<string>, b: seq<string>, titles: map<string, string>)
    ensures TitlesFor(a + b, titles) == TitlesFor(a, titles) + TitlesFor(b, titles)
  {
    if b == [] {
      assert a + b == a;
    } else {
      TitlesAppend(a, b[..|b| - 1], titles);
      assert (a + b)[..|a + b| - 1] == a + b[..|b| - 1];
    }
  }

  lemma TitleOfOne(id: string, titles: map<string, string>)
    ensures TitlesFor([id], titles) == if id !in titles || titles[id] == "" then [] else [titles[id]]
  {
    assert [id][..0] == [];
  }

  lemma {:induction false} FindingsHaveStatus(packets: seq<Packet>, status: Status, titles: map<string, string>)
    ensures forall i :: 0 <= i < |FindingsWith(packets, status, titles)| ==>
              FindingsWith(packets, status, titles)[i].status == status
  {
    if packets != [] { FindingsHaveStatus(packets[..|packets| - 1], status, titles); }
  }

  lemma {:induction false} GroupMembers(fs: seq<Finding>, claim: string, f: Finding)
    ensures f in Group(fs, claim) <==> f in fs && f.claim == claim
  {
    if fs != [] {
      GroupMembers(fs[..|fs| - 1], claim, f);
      assert fs == fs[..|fs| - 1] + [fs[|fs| - 1]];
    }
  }

  lemma {:induction false} IdsMember(fs: seq<Finding>, id: string)
    ensures id in Ids(fs) <==> exists i :: 0 <= i < |fs| && fs[i].id == id
  {
    if fs != [] {
      var front := fs[..|fs| - 1];
      IdsMember(front, id);
      if i :| 0 <= i < |fs| && fs[i].id == id { assert i < |front| ==> front[i].id == id; }
      if i :| 0 <= i < |front| && front[i].id == id { assert fs[i].id == id; }
    }
  }

  /** The score of a group is attained by a finding, and no finding exceeds it. */
  lemma {:induction false} TopScoreIsMaximum(fs: seq<Finding>)
    ensures TopScore(fs) == None <==> forall i :: 0 <= i < |fs| ==> fs[i].score == None
    ensures TopScore(fs).Some? ==> exists i :: 0 <= i < |fs| && fs[i].score == TopScore(fs)
    ensures forall i :: 0 <= i < |fs| && fs[i].score.Some? ==>
              TopScore(fs).Some? && fs[i].score.value <= TopScore(fs).value
  {
    if fs != [] {
      var front := fs[..|fs| - 1];
      TopScoreIsMaximum(front);
      if TopScore(fs).Some? && TopScore(fs) == TopScore(front) {
        var i :| 0 <= i < |front| && front[i].score == TopScore(front);
        assert fs[i].score == TopScore(fs);
      }
      forall i | 0 <= i < |front| ensures fs[i] == front[i] {}
    }
  }

  /** Every verified finding with a claim is counted in exactly one conclusion, the one of its
      claim, and that conclusion's finding ids come from findings of that claim only. */
  lemma ConclusionOfFinding(fs: seq<Finding>, titles: map<string, string>, f: Finding) returns (k: nat)
    requires f in fs && f.claim != ""
    ensures k < |Conclusions(fs, titles)| && Conclusions(fs, titles)[k].claim == f.claim
    ensures forall j :: 0 <= j < |Conclusions(fs, titles)| && Conclusions(fs, titles)[j].claim == f.claim ==> j == k
    ensures f in Group(fs, f.claim)
    ensures f.score.Some? ==>
              Conclusions(fs, titles)[k].score.Some? && f.score.value <= Conclusions(fs, titles)[k].score.value
  {
    var claims := Claims(fs);
    var i :| 0 <= i < |fs| && fs[i] == f;
    assert claims[i] in claims;
    DedupMembers(claims, f.claim);
    DedupNoDuplicates(claims);
    k :| 0 <= k < |Dedup(claims)| && Dedup(claims)[k] == f.claim;
    GroupMembers(fs, f.claim, f);
    var g := Group(fs, f.claim);
    TopScoreIsMaximum(g);
    var j :| 0 <= j < |g| && g[j] == f;
  }

  lemma ConclusionIdsComeFromGroup(fs: seq<Finding>, titles: map<string, string>, k: nat, id: string)
    requires k < |Conclusions(fs, titles)|
    requires forall i :: 0 <= i < |fs| ==> Trim(fs[i].id) == fs[i].id
    ensures id in Conclusions(fs, titles)[k].findingIds <==>
              id != "" && exists i :: 0 <= i < |fs| && fs[i].id == id && fs[i].claim == Conclusions(fs, titles)[k].claim
  {
    var claim := Conclusions(fs, titles)[k].claim;
    var g := Group(fs, claim);
    IdsAreTrimmed(fs, claim);
    UniqueIsClean(Ids(g));
    IdsMember(g, id);
    if i :| 0 <= i < |g| && g[i].id == id {
      GroupMembers(fs, claim, g[i]);
      var j :| 0 <= j < |fs| && fs[j] == g[i];
    }
    if i :| 0 <= i < |fs| && fs[i].id == id && fs[i].claim == claim {
      GroupMembers(fs, claim, fs[i]);
      var j :| 0 <= j < |g| && g[j] == fs[i];
    }
  }

  lemma {:induction false} SourcesMember(fs: seq<Finding>, id: string)
    ensures id in Sources(fs) <==> exists i :: 0 <= i < |fs| && id in fs[i].sourceIds
  {
    if fs != [] {
      var front := fs[..|fs| - 1];
      SourcesMember(front, id);
      if i :| 0 <= i < |fs| && id in fs[i].sourceIds { assert i < |front| ==> front[i] == fs[i]; }
      if i :| 0 <= i < |front| && id in front[i].sourceIds { assert fs[i] == front[i]; }
    }
  }

  /** The findings a dossier is built from have clean source ids. */
  ghost predicate CleanSources(fs: seq<Finding>) {
    forall i :: 0 <= i < |fs| ==> Unique(fs[i].sourceIds) == fs[i].sourceIds
  }

  lemma SourcesAreClean(fs: seq<Finding>, claim: string)
    requires CleanSources(fs)
    ensures TrimEach(Sources(Group(fs, claim))) == Sources(Group(fs, claim)) && "" !in Sources(Group(fs, claim))
  {
    var all := Sources(Group(fs, claim));
    forall id | id in all ensures Trim(id) == id != "" { SourceIsClean(fs, claim, id); }
    forall k | 0 <= k < |all| ensures TrimEach(all)[k] == all[k] { assert all[k] in all; }
  }

  lemma SourceIsClean(fs: seq<Finding>, claim: string, id: string)
    requires CleanSources(fs) && id in Sources(Group(fs, claim))
    ensures Trim(id) == id != ""
  {
    var g := Group(fs, claim);
    SourcesMember(g, id);
    var j :| 0 <= j < |g| && id in g[j].sourceIds;
    GroupMembers(fs, claim, g[j]);
    var k :| 0 <= k < |g[j].sourceIds| && g[j].sourceIds[k] == id;
    UniqueTwice(g[j].sourceIds);
    UniqueIsClean(g[j].sourceIds);
    assert TrimEach(g[j].sourceIds)[k] == id;
  }

  /** The sources of a conclusion are exactly those of the findings with its claim. */
  lemma ConclusionSourcesComeFromGroup(fs: seq<Finding>, titles: map<string, string>, k: nat, id: string)
    requires k < |Conclusions(fs, titles)| && CleanSources(fs)
    ensures id in Conclusions(fs, titles)[k].sourceIds <==>
              exists i :: 0 <= i < |fs| && id in fs[i].sourceIds && fs[i].claim == Conclusions(fs, titles)[k].claim
  {
    var claim := Conclusions(fs, titles)[k].claim;
    var g := Group(fs, claim);
    SourcesAreClean(fs, claim);
    UniqueIsClean(Sources(g));
    GroupSources(fs, claim, id);
  }

  lemma GroupSources(fs: seq<Finding>, claim: string, id: string)
    ensures id in Sources(Group(fs, claim)) <==>
              exists i :: 0 <= i < |fs| && id in fs[i].sourceIds && fs[i].claim == claim
  {
    var g := Group(fs, claim);
    SourcesMember(g, id);
    if i :| 0 <= i < |g| && id in g[i].sourceIds {
      GroupMembers(fs, claim, g[i]);
      var j :| 0 <= j < |fs| && fs[j] == g[i];
    }
    if i :| 0 <= i < |fs| && id in fs[i].sourceIds && fs[i].claim == claim {
      GroupMembers(fs, claim, fs[i]);
      var j :| 0 <= j < |g| && g[j] == fs[i];
    }
  }

  lemma IdsAreTrimmed(fs: seq<Finding>, claim: string)
    requires forall i :: 0 <= i < |fs| ==> Trim(fs[i].id) == fs[i].id
    ensures TrimEach(Ids(Group(fs, claim))) == Ids(Group(fs, claim))
  {
    var g := Group(fs, claim);
    forall i | 0 <= i < |Ids(g)| ensures Trim(Ids(g)[i]) == Ids(g)[i] {
      IdsMember(g, Ids(g)[i]);
      var j :| 0 <= j < |g| && g[j].id == Ids(g)[i];
      GroupMembers(fs, claim, g[j]);
    }
  }
}
