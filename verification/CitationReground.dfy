/** The bounded re-grounding loop over a full-paper job: verify, rewrite the failing sections the
    user has not edited, and verify again.  The revisions a language model returns are a function
    of the round and the section. */
module CitationReground {
  import opened Strings
  import opened Wrappers
  import opened FullPaperJob
  import opened CitationIntegrity

  /** What the loop is given: the scanner, the model's revisions, and the instructions. */
  datatype Env = Env(scanner: Scanner, revise: (nat, string) -> string, note: string)

  datatype Stop = NothingUngrounded | SameFingerprint | NothingToRewrite | RoundsOut

  datatype Regrounded = Regrounded(job: Job, stop: Stop, rounds: nat)

  predicate UserEditedId(drafts: seq<Section>, id: string) {
    exists i :: 0 <= i < |drafts| && drafts[i].id == id && drafts[i].userEdited
  }

  function Targets(drafts: seq<Section>, failing: seq<string>): seq<string> {
    if failing == [] then []
    else
      var last := failing[|failing| - 1];
      Targets(drafts, failing[..|failing| - 1]) + if UserEditedId(drafts, last) then [] else [last]
  }

  function RewriteAll(job: Job, ids: seq<string>, env: Env, round: nat): Job {
    if ids == [] then job
    else
      var last := ids[|ids| - 1];
      AfterRewrite(RewriteAll(job, ids[..|ids| - 1], env, round), last, env.revise(round, last), env.note)
  }

  /** What one pass decides: stop, or go on with the rewritten job and the pass's fingerprint. */
  datatype Pass = StopNow(why: Stop) | GoOn(next: Job, fingerprint: string)

  function PassOf(env: Env, job: Job, round: nat, previous: string): Pass {
    var os := Verify(env.scanner, job.workspace);
    var targets := Targets(job.workspace.drafts, FailingIds(os));
    if Summarize(os).ungrounded == 0 then StopNow(NothingUngrounded)
    else if Fingerprint(os) == previous then StopNow(SameFingerprint)
    else if targets == [] then StopNow(NothingToRewrite)
    else GoOn(RewriteAll(job, targets, env, round), Fingerprint(os))
  }

  type Passes = (Job, nat, string) -> Pass

  function PassesOf(env: Env): Passes { (job: Job, round: nat, previous: string) => PassOf(env, job, round, previous) }

  /** The loop from round `round` on; `previous` is the last round's fingerprint. */
  function Rounds(pass: Passes, job: Job, round: nat, max: nat, previous: string): Regrounded
    requires round <= max
    decreases max - round
  {
    if round == max then Regrounded(job, RoundsOut, round)
    else
      match pass(job, round, previous)
      case StopNow(why) => Regrounded(job, why, round)
      case GoOn(next, fingerprint) => Rounds(pass, next, round + 1, max, fingerprint)
  }

  const DEFAULT_MAX_ROUNDS: nat := 2

  function RoundLimit(maxRounds: int): nat { if maxRounds <= 0 then DEFAULT_MAX_ROUNDS else maxRounds }

  function AfterReground(env: Env, job: Job, maxRounds: int): Regrounded {
    Rounds(PassesOf(env), job, 0, RoundLimit(maxRounds), "")
  }

  // ---------- which sections fail ----------

  /** A section has a citation that is not verified. */
  ghost predicate DraftFails(sc: Scanner, sources: seq<string>, s: Section) {
    exists k :: 0 <= k < |SectionOutcomes(sc, sources, s)| && !SectionOutcomes(sc, sources, s)[k].verified
  }

  lemma {:induction false} UnverifiedFromDraft(sc: Scanner, sources: seq<string>, drafts: seq<Section>, i: nat)
    returns (j: nat)
    requires i < |DraftOutcomes(sc, sources, drafts)| && !DraftOutcomes(sc, sources, drafts)[i].verified
    ensures j < |drafts| && drafts[j].id == DraftOutcomes(sc, sources, drafts)[i].sectionId
    ensures DraftFails(sc, sources, drafts[j])
  {
    var front := DraftOutcomes(sc, sources, drafts[..|drafts| - 1]);
    var last := drafts[|drafts| - 1];
    if i < |front| {
      j := UnverifiedFromDraft(sc, sources, drafts[..|drafts| - 1], i);
    } else {
      j := |drafts| - 1;
      OutcomeNamesSection(sc, sources, last, i - |front|);
      assert SectionOutcomes(sc, sources, last)[i - |front|] == DraftOutcomes(sc, sources, drafts)[i];
    }
  }

  lemma {:induction false} FailingDraftShows(sc: Scanner, sources: seq<string>, drafts: seq<Section>, j: nat)
    returns (i: nat)
    requires j < |drafts| && DraftFails(sc, sources, drafts[j])
    ensures i < |DraftOutcomes(sc, sources, drafts)| && !DraftOutcomes(sc, sources, drafts)[i].verified
    ensures DraftOutcomes(sc, sources, drafts)[i].sectionId == drafts[j].id
  {
    var front := DraftOutcomes(sc, sources, drafts[..|drafts| - 1]);
    if j < |drafts| - 1 {
      i := FailingDraftShows(sc, sources, drafts[..|drafts| - 1], j);
      assert DraftOutcomes(sc, sources, drafts)[i] == front[i];
    } else {
      var more := SectionOutcomes(sc, sources, drafts[j]);
      var k :| 0 <= k < |more| && !more[k].verified;
      OutcomeNamesSection(sc, sources, drafts[j], k);
      i := |front| + k;
      assert (front + more)[i] == more[k];
    }
  }

  lemma OutcomeNamesSection(sc: Scanner, sources: seq<string>, s: Section, k: nat)
    requires k < |SectionOutcomes(sc, sources, s)|
    ensures SectionOutcomes(sc, sources, s)[k].sectionId == s.id
  {
  }

  /** The failing ids are exactly the (non-blank) ids of failing drafts. */
  lemma FailingIdsAreDrafts(sc: Scanner, w: Workspace, id: string)
    ensures id in FailingIds(Verify(sc, w)) <==>
              && Trim(id) != ""
              && exists j :: 0 <= j < |w.drafts| && w.drafts[j].id == id
                             && DraftFails(sc, SourcesOf(w.artifacts), w.drafts[j])
  {
    var os := Verify(sc, w);
    FailingIdsFacts(os);
    if i :| 0 <= i < |os| && !os[i].verified && os[i].sectionId == id {
      var j := UnverifiedFromDraft(sc, SourcesOf(w.artifacts), w.drafts, i);
    }
    if j :| 0 <= j < |w.drafts| && w.drafts[j].id == id && DraftFails(sc, SourcesOf(w.artifacts), w.drafts[j]) {
      var i := FailingDraftShows(sc, SourcesOf(w.artifacts), w.drafts, j);
    }
  }

  lemma {:induction false} TargetsFacts(drafts: seq<Section>, failing: seq<string>)
    requires NoDuplicates(failing)
    ensures NoDuplicates(Targets(drafts, failing))
    ensures forall id :: id in Targets(drafts, failing) <==> id in failing && !UserEditedId(drafts, id)
  {
    if failing != [] {
      var front := failing[..|failing| - 1];
      TargetsFacts(drafts, front);
      assert failing == front + [failing[|failing| - 1]];
      assert failing[|failing| - 1] !in front;
    }
  }

  // ---------- what one round does ----------

  lemma {:induction false} SourcesKept(artifacts: seq<Artifact>, a: Artifact)
    requires a.kind != SourceBundle
    ensures SourcesOf(artifacts + [a]) == SourcesOf(artifacts)
  {
    if artifacts == [] {
      assert (artifacts + [a])[1..] == [];
    } else {
      SourcesKept(artifacts[1..], a);
      assert (artifacts + [a])[1..] == artifacts[1..] + [a];
    }
  }

  /** Job b is job a with some drafts rewritten: `ids` are the ones that moved, by one version each. */
  ghost predicate RewroteOnly(a: Job, b: Job, ids: seq<string>) {
    var v, w := a.workspace, b.workspace;
    && |w.drafts| == |v.drafts|
    && SourcesOf(w.artifacts) == SourcesOf(v.artifacts)
    && (forall j :: 0 <= j < |v.drafts| ==> DraftMoved(v.drafts[j], w.drafts[j], v.drafts[j].id in ids))
    && v.audit <= w.audit && |w.audit| == |v.audit| + |ids|
    && (forall k :: |v.audit| <= k < |w.audit| ==> w.audit[k].action == SectionRewritten)
  }

  ghost predicate HasDraft(drafts: seq<Section>, id: string) {
    exists j :: 0 <= j < |drafts| && drafts[j].id == id
  }

  ghost predicate DraftMoved(s: Section, t: Section, moved: bool) {
    t.id == s.id && t.userEdited == s.userEdited
    && if moved then t.version == s.version + 1 else t == s
  }

  lemma RewrittenViews(job: Job, id: string, revised: string, note: string)
    requires RewriteFailure(job, id).None?
    ensures var w, w' := job.workspace, AfterRewrite(job, id, revised, note).workspace;
            var i := DraftIndex(w.drafts, id);
            && i < |w.drafts| && w'.drafts == w.drafts[i := RewrittenDraft(w.drafts[i], revised, note)]
            && w'.artifacts == w.artifacts + [w'.latestManuscript] && w'.latestManuscript.kind == Manuscript
            && w'.audit == w.audit + [AuditEntry(SectionRewritten, AnyUser, PeerReviewer)]
  {
  }

  /** The draft with an id is where the search finds it. */
  lemma DraftIsFound(drafts: seq<Section>, id: string) returns (i: nat)
    requires HasDraft(drafts, id)
    ensures i == DraftIndex(drafts, id) < |drafts| && drafts[i].id == id
  {
    i := DraftIndex(drafts, id);
  }

  lemma OneRewrite(job: Job, id: string, revised: string, note: string)
    requires Consistent(job) && id != "" && HasDraft(job.workspace.drafts, id)
    ensures RewriteFailure(job, id).None?
    ensures RewroteOnly(job, AfterRewrite(job, id, revised, note), [id])
  {
    var drafts := job.workspace.drafts;
    var i := DraftIsFound(drafts, id);
    RewrittenViews(job, id, revised, note);
    RewroteFrom(job, AfterRewrite(job, id, revised, note), i, RewrittenDraft(drafts[i], revised, note));
  }

  lemma RewroteFrom(a: Job, b: Job, i: nat, s: Section)
    requires i < |a.workspace.drafts| && UniqueSections(a.workspace.drafts) &&
               DraftMoved(a.workspace.drafts[i], s, true)
    requires b.workspace.drafts == a.workspace.drafts[i := s]
    requires b.workspace.artifacts == a.workspace.artifacts + [b.workspace.latestManuscript]
    requires b.workspace.latestManuscript.kind == Manuscript
    requires b.workspace.audit == a.workspace.audit + [AuditEntry(SectionRewritten, AnyUser, PeerReviewer)]
    ensures RewroteOnly(a, b, [a.workspace.drafts[i].id])
  {
    SourcesKept(a.workspace.artifacts, b.workspace.latestManuscript);
    RewroteAt(a.workspace.drafts, i, s);
  }

  lemma RewroteAt(drafts: seq<Section>, i: nat, s: Section)
    requires i < |drafts| && UniqueSections(drafts) && DraftMoved(drafts[i], s, true)
    ensures forall j :: 0 <= j < |drafts| ==> DraftMoved(drafts[j], drafts[i := s][j], drafts[j].id in [drafts[i].id])
  {
  }

  lemma RewroteMore(a: Job, b: Job, c: Job, ids: seq<string>, id: string)
    requires RewroteOnly(a, b, ids) && RewroteOnly(b, c, [id]) && id !in ids
    ensures RewroteOnly(a, c, ids + [id])
  {
    var u, v, w := a.workspace, b.workspace, c.workspace;
    forall j | 0 <= j < |u.drafts| ensures DraftMoved(u.drafts[j], w.drafts[j], u.drafts[j].id in ids + [id]) {
      assert DraftMoved(u.drafts[j], v.drafts[j], u.drafts[j].id in ids);
      assert DraftMoved(v.drafts[j], w.drafts[j], v.drafts[j].id in [id]);
    }
    forall k | |u.audit| <= k < |w.audit| ensures w.audit[k].action == SectionRewritten {
      assert k < |v.audit| ==> w.audit[k] == v.audit[k];
    }
  }

  lemma RewriteOneMore(job: Job, mid: Job, ids: seq<string>, id: string, revised: string, note: string)
    requires Consistent(mid) && RewroteOnly(job, mid, ids)
    requires id != "" && HasDraft(job.workspace.drafts, id) && id !in ids
    ensures Consistent(AfterRewrite(mid, id, revised, note))
    ensures RewroteOnly(job, AfterRewrite(mid, id, revised, note), ids + [id])
  {
    var j :| 0 <= j < |job.workspace.drafts| && job.workspace.drafts[j].id == id;
    assert DraftMoved(job.workspace.drafts[j], mid.workspace.drafts[j], job.workspace.drafts[j].id in ids);
    assert mid.workspace.drafts[j].id == id;
    OneRewrite(mid, id, revised, note);
    RewriteConsistent(mid, id, revised, note);
    RewroteMore(job, mid, AfterRewrite(mid, id, revised, note), ids, id);
  }

  ghost predicate AllDrafts(drafts: seq<Section>, ids: seq<string>) {
    forall k :: 0 <= k < |ids| ==> ids[k] != "" && HasDraft(drafts, ids[k])
  }

  lemma {:induction false} RewriteAllEffect(job: Job, ids: seq<string>, env: Env, round: nat)
    requires Consistent(job) && NoDuplicates(ids) && AllDrafts(job.workspace.drafts, ids)
    ensures Consistent(RewriteAll(job, ids, env, round))
    ensures RewroteOnly(job, RewriteAll(job, ids, env, round), ids)
  {
    if ids != [] {
      var front, last := ids[..|ids| - 1], ids[|ids| - 1];
      FrontAndLast(ids);
      RewriteAllEffect(job, front, env, round);
      RewriteOneMore(job, RewriteAll(job, front, env, round), front, last, env.revise(round, last), env.note);
    }
  }

  lemma FrontAndLast(ids: seq<string>)
    requires ids != [] && NoDuplicates(ids)
    ensures ids == ids[..|ids| - 1] + [ids[|ids| - 1]]
    ensures ids[|ids| - 1] !in ids[..|ids| - 1]
  {
  }

  /** The targets of a round are ids of failing drafts the user has not edited, so every rewrite of
      the round succeeds. */
  lemma RoundTargets(env: Env, job: Job)
    requires Consistent(job)
    ensures var targets := Targets(job.workspace.drafts, FailingIds(Verify(env.scanner, job.workspace)));
            && NoDuplicates(targets)
            && AllDrafts(job.workspace.drafts, targets)
            && (forall j :: 0 <= j < |job.workspace.drafts| && job.workspace.drafts[j].id in targets ==>
                  !job.workspace.drafts[j].userEdited
                  && DraftFails(env.scanner, SourcesOf(job.workspace.artifacts), job.workspace.drafts[j]))
  {
    var w := job.workspace;
    var os := Verify(env.scanner, w);
    FailingIdsFacts(os);
    TargetsFacts(w.drafts, FailingIds(os));
    var targets := Targets(w.drafts, FailingIds(os));
    forall k | 0 <= k < |targets| ensures targets[k] != "" && HasDraft(w.drafts, targets[k]) {
      assert targets[k] in targets;
      FailingIdsAreDrafts(env.scanner, w, targets[k]);
    }
    forall j | 0 <= j < |w.drafts| && w.drafts[j].id in Targets(w.drafts, FailingIds(os))
      ensures !w.drafts[j].userEdited && DraftFails(env.scanner, SourcesOf(w.artifacts), w.drafts[j])
    {
      FailingIdsAreDrafts(env.scanner, w, w.drafts[j].id);
    }
  }

  // ---------- the whole loop ----------

  /** What re-grounding does to one draft: at most one version per round, and nothing at all to a
      draft the user edited or one whose citations were all verified to begin with. */
  ghost predicate DraftRegrounded(sc: Scanner, sources: seq<string>, s: Section, t: Section, rounds: int) {
    && t.id == s.id && t.userEdited == s.userEdited
    && s.version <= t.version <= s.version + rounds
    && (s.userEdited || !DraftFails(sc, sources, s) ==> t == s)
  }

  ghost predicate JobRegrounded(sc: Scanner, a: Job, b: Job, rounds: int) {
    var v, w := a.workspace, b.workspace;
    && |w.drafts| == |v.drafts| && SourcesOf(w.artifacts) == SourcesOf(v.artifacts)
    && (forall j :: 0 <= j < |v.drafts| ==>
          DraftRegrounded(sc, SourcesOf(v.artifacts), v.drafts[j], w.drafts[j], rounds))
    && v.audit <= w.audit
    && (forall k :: |v.audit| <= k < |w.audit| ==> w.audit[k].action == SectionRewritten)
  }

  lemma OneRound(sc: Scanner, a: Job, b: Job, ids: seq<string>)
    requires RewroteOnly(a, b, ids)
    requires forall j :: 0 <= j < |a.workspace.drafts| && a.workspace.drafts[j].id in ids ==>
               !a.workspace.drafts[j].userEdited
               && DraftFails(sc, SourcesOf(a.workspace.artifacts), a.workspace.drafts[j])
    ensures JobRegrounded(sc, a, b, 1)
  {
    forall j | 0 <= j < |a.workspace.drafts|
      ensures DraftRegrounded(sc, SourcesOf(a.workspace.artifacts), a.workspace.drafts[j], b.workspace.drafts[j], 1)
    {
      assert DraftMoved(a.workspace.drafts[j], b.workspace.drafts[j], a.workspace.drafts[j].id in ids);
    }
  }

  lemma MoreRounds(sc: Scanner, a: Job, b: Job, c: Job, m: int, n: int)
    requires JobRegrounded(sc, a, b, m) && JobRegrounded(sc, b, c, n)
    ensures JobRegrounded(sc, a, c, m + n)
  {
    var u, v, w := a.workspace, b.workspace, c.workspace;
    forall j | 0 <= j < |u.drafts|
      ensures DraftRegrounded(sc, SourcesOf(u.artifacts), u.drafts[j], w.drafts[j], m + n)
    {
      assert DraftRegrounded(sc, SourcesOf(u.artifacts), u.drafts[j], v.drafts[j], m);
      assert DraftRegrounded(sc, SourcesOf(v.artifacts), v.drafts[j], w.drafts[j], n);
    }
    forall k | |u.audit| <= k < |w.audit| ensures w.audit[k].action == SectionRewritten {
      assert k < |v.audit| ==> w.audit[k] == v.audit[k];
    }
  }

  /** Why the loop stopped, read off the job it returned. */
  ghost predicate StopExplained(env: Env, job: Job, why: Stop, previous: string) {
    var os := Verify(env.scanner, job.workspace);
    match why
    case NothingUngrounded => Summarize(os).ungrounded == 0
    case SameFingerprint => Summarize(os).ungrounded != 0 && Fingerprint(os) == previous
    case NothingToRewrite =>
      Summarize(os).ungrounded != 0 && forall id :: id in FailingIds(os) ==> UserEditedId(job.workspace.drafts, id)
    case RoundsOut => false
  }

  /** A pass over a consistent job either stops for a good reason or is one round of rewriting. */
  ghost predicate GoodPass(env: Env, pass: Passes, job: Job, round: nat, previous: string) {
    Consistent(job) ==>
      match pass(job, round, previous)
      case StopNow(why) => StopExplained(env, job, why, previous)
      case GoOn(next, fingerprint) => Consistent(next) && JobRegrounded(env.scanner, job, next, 1)
  }

  lemma RoundStep(env: Env, job: Job, round: nat, targets: seq<string>)
    requires Consistent(job)
    requires targets == Targets(job.workspace.drafts, FailingIds(Verify(env.scanner, job.workspace)))
    ensures Consistent(RewriteAll(job, targets, env, round))
    ensures JobRegrounded(env.scanner, job, RewriteAll(job, targets, env, round), 1)
  {
    RoundTargets(env, job);
    RewriteAllEffect(job, targets, env, round);
    OneRound(env.scanner, job, RewriteAll(job, targets, env, round), targets);
  }

  lemma NothingLeft(drafts: seq<Section>, os: seq<Outcome>)
    requires Targets(drafts, FailingIds(os)) == []
    ensures forall id :: id in FailingIds(os) ==> UserEditedId(drafts, id)
  {
    FailingIdsFacts(os);
    TargetsFacts(drafts, FailingIds(os));
  }

  lemma PassIsGood(env: Env, job: Job, round: nat, previous: string)
    ensures GoodPass(env, PassesOf(env), job, round, previous)
  {
    var targets := Targets(job.workspace.drafts, FailingIds(Verify(env.scanner, job.workspace)));
    if Consistent(job) {
      if targets == [] {
        NothingLeft(job.workspace.drafts, Verify(env.scanner, job.workspace));
      } else {
        RoundStep(env, job, round, targets);
      }
    }
  }

  lemma NoRounds(sc: Scanner, job: Job)
    ensures JobRegrounded(sc, job, job, 0)
  {
  }

  /** What holds of the job a run of rounds returns. */
  lemma {:induction false} RoundsFacts(env: Env, pass: Passes, job: Job, round: nat, max: nat, previous: string)
    requires Consistent(job) && round <= max
    requires forall j, k, p :: GoodPass(env, pass, j, k, p)
    ensures var r := Rounds(pass, job, round, max, previous);
            && round <= r.rounds <= max
            && Consistent(r.job)
            && JobRegrounded(env.scanner, job, r.job, r.rounds - round)
    decreases max - round
  {
    assert GoodPass(env, pass, job, round, previous);
    if round == max || pass(job, round, previous).StopNow? {
      NoRounds(env.scanner, job);
    } else {
      var next, fingerprint := pass(job, round, previous).next, pass(job, round, previous).fingerprint;
      RoundsFacts(env, pass, next, round + 1, max, fingerprint);
      var r := Rounds(pass, next, round + 1, max, fingerprint);
      MoreRounds(env.scanner, job, next, r.job, 1, r.rounds - (round + 1));
    }
  }

  /** A pass hands on the fingerprint of the job it started from, and never claims the rounds ran out. */
  ghost predicate HonestPass(pass: Passes, stamp: Job -> string) {
    && (forall j, k, p :: pass(j, k, p).GoOn? ==> pass(j, k, p).fingerprint == stamp(j))
    && (forall j, k, p :: pass(j, k, p) != StopNow(RoundsOut))
  }

  /** The fingerprint the pass of round n compares with: that of the job round n - 1 started from. */
  function Handed(pass: Passes, stamp: Job -> string, job: Job, round: nat, n: nat, previous: string): string
    requires round <= n
  {
    if n == round then previous else stamp(Rounds(pass, job, round, n - 1, previous).job)
  }

  /** Where the rounds stop.  The last round is a pass from the job of the same loop cut off one round
      earlier to the job returned, and the pass that stops compares with what that round handed on. */
  ghost predicate StopsAfter(pass: Passes, stamp: Job -> string, job: Job, round: nat, max: nat, previous: string)
    requires round <= max
  {
    var r := Rounds(pass, job, round, max, previous);
    && round <= r.rounds <= max
    && (r.stop == RoundsOut <==> r.rounds == max)
    && (r.rounds == round ==> r.job == job)
    && (r.rounds < max ==>
          pass(r.job, r.rounds, Handed(pass, stamp, job, round, r.rounds, previous)) == StopNow(r.stop))
    && (r.rounds > round ==>
          pass(Rounds(pass, job, round, r.rounds - 1, previous).job, r.rounds - 1,
               Handed(pass, stamp, job, round, r.rounds - 1, previous))
          == GoOn(r.job, Handed(pass, stamp, job, round, r.rounds, previous)))
  }

  lemma HandedOn(pass: Passes, stamp: Job -> string, job: Job, round: nat, n: nat, previous: string)
    requires round < n && pass(job, round, previous).GoOn? && pass(job, round, previous).fingerprint == stamp(job)
    ensures Handed(pass, stamp, job, round, n, previous)
            == Handed(pass, stamp, pass(job, round, previous).next, round + 1, n, stamp(job))
  {
  }

  lemma {:induction false} RoundsStop(pass: Passes, stamp: Job -> string, job: Job, round: nat, max: nat,
                                      previous: string)
    requires round <= max && HonestPass(pass, stamp)
    ensures StopsAfter(pass, stamp, job, round, max, previous)
    decreases max - round
  {
    if round < max && pass(job, round, previous).GoOn? {
      var next := pass(job, round, previous).next;
      RoundsStop(pass, stamp, next, round + 1, max, stamp(job));
      var r := Rounds(pass, job, round, max, previous);
      HandedOn(pass, stamp, job, round, r.rounds, previous);
      if r.rounds > round + 1 {
        HandedOn(pass, stamp, job, round, r.rounds - 1, previous);
      } else {
        assert Rounds(pass, job, round, round, previous).job == job;
        assert Handed(pass, stamp, job, round, round, previous) == previous;
        assert Handed(pass, stamp, job, round, round + 1, previous) == stamp(job);
        assert r.job == next;
      }
    }
  }

  function StampOf(env: Env): Job -> string { (job: Job) => Fingerprint(Verify(env.scanner, job.workspace)) }

  /** The job after the first n rounds. */
  function AfterRounds(env: Env, job: Job, n: nat): Job { Rounds(PassesOf(env), job, 0, n, "").job }

  /** The fingerprint the pass of round n compares with: that of the job round n - 1 started from,
      empty for the first round. */
  function PreviousPrint(env: Env, job: Job, n: nat): string {
    if n == 0 then "" else Fingerprint(Verify(env.scanner, AfterRounds(env, job, n - 1).workspace))
  }

  /** Where a re-grounding stops: its last round is the pass from the job of one round earlier to the
      job returned, and when it stops before its limit, the next pass over that job says why. */
  lemma RegroundStops(env: Env, job: Job, maxRounds: int)
    ensures var r := AfterReground(env, job, maxRounds);
            && r.rounds <= RoundLimit(maxRounds)
            && (r.stop == RoundsOut <==> r.rounds == RoundLimit(maxRounds))
            && (r.rounds < RoundLimit(maxRounds) ==>
                  PassOf(env, r.job, r.rounds, PreviousPrint(env, job, r.rounds)) == StopNow(r.stop))
            && (r.rounds > 0 ==>
                  PassOf(env, AfterRounds(env, job, r.rounds - 1), r.rounds - 1, PreviousPrint(env, job, r.rounds - 1))
                  == GoOn(r.job, PreviousPrint(env, job, r.rounds)))
  {
    RoundsStop(PassesOf(env), StampOf(env), job, 0, RoundLimit(maxRounds), "");
    var r := AfterReground(env, job, maxRounds);
    assert Handed(PassesOf(env), StampOf(env), job, 0, r.rounds, "") == PreviousPrint(env, job, r.rounds);
    if r.rounds > 0 {
      assert Handed(PassesOf(env), StampOf(env), job, 0, r.rounds - 1, "") == PreviousPrint(env, job, r.rounds - 1);
    }
  }

  lemma RegroundExplained(env: Env, job: Job, maxRounds: int)
    ensures var r := AfterReground(env, job, maxRounds);
            && (r.stop == SameFingerprint ==> r.rounds >= 1)
            && (Consistent(r.job) && r.stop != RoundsOut ==>
                  StopExplained(env, r.job, r.stop, PreviousPrint(env, job, r.rounds)))
  {
    var r := AfterReground(env, job, maxRounds);
    RegroundStops(env, job, maxRounds);
    PassIsGood(env, r.job, r.rounds, PreviousPrint(env, job, r.rounds));
    if r.stop == SameFingerprint { FingerprintNotEmpty(Verify(env.scanner, r.job.workspace)); }
  }

  /** Re-grounding a consistent job: it ends within the round limit, keeps the job consistent,
      raises no section by more than one version per round, leaves user-edited sections and
      sections whose citations were all verified exactly as they were, logs only rewrites, and
      stops for one of the four reasons.  A repeated fingerprint is that of the verification the
      last round started from, so there was one. */
  lemma Reground(env: Env, job: Job, maxRounds: int)
    requires Consistent(job)
    ensures var r := AfterReground(env, job, maxRounds);
            && r.rounds <= RoundLimit(maxRounds)
            && Consistent(r.job)
            && JobRegrounded(env.scanner, job, r.job, r.rounds)
            && (if r.stop == RoundsOut then r.rounds == RoundLimit(maxRounds)
                else StopExplained(env, r.job, r.stop, PreviousPrint(env, job, r.rounds)))
            && (r.stop == SameFingerprint ==> r.rounds >= 1)
  {
    forall j, k, p ensures GoodPass(env, PassesOf(env), j, k, p) { PassIsGood(env, j, k, p); }
    RoundsFacts(env, PassesOf(env), job, 0, RoundLimit(maxRounds), "");
    RegroundStops(env, job, maxRounds);
    RegroundExplained(env, job, maxRounds);
  }

  /** A repeated fingerprint, spelled out: the last round did rewrite, and its result has the
      fingerprint of the job it started from. */
  lemma RepeatIsReal(env: Env, job: Job, maxRounds: int)
    requires Consistent(job) && AfterReground(env, job, maxRounds).stop == SameFingerprint
    ensures var r := AfterReground(env, job, maxRounds);
            && r.rounds >= 1
            && var prior := AfterRounds(env, job, r.rounds - 1);
               var targets := Targets(prior.workspace.drafts, FailingIds(Verify(env.scanner, prior.workspace)));
               && targets != [] && r.job == RewriteAll(prior, targets, env, r.rounds - 1)
               && Fingerprint(Verify(env.scanner, prior.workspace)) == Fingerprint(Verify(env.scanner, r.job.workspace))
  {
    RegroundStops(env, job, maxRounds);
    Reground(env, job, maxRounds);
  }

  /** When the first round's rewrites leave the fingerprint as it was, the loop stops on the second pass. */
  lemma FirstRoundRepeats(env: Env, job: Job, maxRounds: int)
    requires RoundLimit(maxRounds) >= 2 && Summarize(Verify(env.scanner, job.workspace)).ungrounded != 0
    requires var targets := Targets(job.workspace.drafts, FailingIds(Verify(env.scanner, job.workspace)));
             targets != []
             && Verify(env.scanner, RewriteAll(job, targets, env, 0).workspace) == Verify(env.scanner, job.workspace)
    ensures AfterReground(env, job, maxRounds).stop == SameFingerprint
  {
    var targets := Targets(job.workspace.drafts, FailingIds(Verify(env.scanner, job.workspace)));
    var next, max := RewriteAll(job, targets, env, 0), RoundLimit(maxRounds);
    var stamp := Fingerprint(Verify(env.scanner, job.workspace));
    FingerprintNotEmpty(Verify(env.scanner, job.workspace));
    assert PassOf(env, job, 0, "") == GoOn(next, stamp);
    assert PassOf(env, next, 1, stamp) == StopNow(SameFingerprint);
    assert Rounds(PassesOf(env), next, 1, max, stamp).stop == SameFingerprint;
  }

  /** The scanner finds one citation in the text, and no source resolves it. */
  ghost predicate Unmet(sc: Scanner, text: string, c: Extracted) {
    && sc.strip(text) == text == Trim(text) != "" && sc.extract(text) == [c] && Usable(c)
    && forall sources :: sc.resolve(c, sources) == Unresolved
  }

  lemma {:induction false} OneOutcome(sc: Scanner, w: Workspace, text: string, c: Extracted)
    requires Unmet(sc, text, c) && |w.drafts| == 1 && w.drafts[0].content == text
    ensures var id := w.drafts[0].id;
            Verify(sc, w) == [Outcome(sc.citationId(id, Trim(c.text), 0, c.paperId), id, Trim(c.text), false, 0)]
  {
    var sources := SourcesOf(w.artifacts);
    var s, o := w.drafts[0], OutcomeOf(sc, sources, w.drafts[0].id, c, 0);
    assert [c][..0] == [] && w.drafts[..0] == [];
    assert Kept([c]) == [c] && TextOutcomes(sc, sources, s.id, [c]) == [o];
    assert SectionOutcomes(sc, sources, s) == [o];
    assert DraftOutcomes(sc, sources, w.drafts) == [] + SectionOutcomes(sc, sources, s);
    assert sc.resolve(c, sources) == Unresolved;
  }

  lemma {:induction false} OneFailing(o: Outcome)
    requires !o.verified && Trim(o.sectionId) != ""
    ensures FailingIds([o]) == [o.sectionId] && Summarize([o]).ungrounded == 1
  {
    assert [o][..0] == [];
    assert FailingIds([]) == [] && VerifiedCount([o]) == VerifiedCount([]) == 0;
  }

  lemma {:induction false} OneTarget(drafts: seq<Section>, id: string)
    requires |drafts| == 1 && !drafts[0].userEdited
    ensures Targets(drafts, [id]) == [id]
  {
    assert [id][..0] == [] && !UserEditedId(drafts, id);
  }

  lemma OneDraftRewritten(job: Job, env: Env)
    requires |job.workspace.drafts| == 1 && job.workspace.drafts[0].id != ""
    ensures var s := job.workspace.drafts[0];
            RewriteAll(job, [s.id], env, 0).workspace.drafts == [RewrittenDraft(s, env.revise(0, s.id), env.note)]
  {
    var s := job.workspace.drafts[0];
    assert [s.id][..0] == [];
    assert DraftIndex(job.workspace.drafts, s.id) == 0;
    RewrittenViews(job, s.id, env.revise(0, s.id), env.note);
  }

  /** A job of one draft with such a citation, whose text the model returns as it is: the loop stops on
      a repeated fingerprint, at any limit of two or more. */
  lemma StubbornRepeats(env: Env, job: Job, c: Extracted, maxRounds: int)
    requires |job.workspace.drafts| == 1 && RoundLimit(maxRounds) >= 2
    requires var s := job.workspace.drafts[0];
             && Trim(s.id) != "" && !s.userEdited
             && Unmet(env.scanner, s.content, c) && Trim(env.revise(0, s.id)) == s.content
    ensures AfterReground(env, job, maxRounds).stop == SameFingerprint
  {
    var s := job.workspace.drafts[0];
    assert s.id != "";
    OneOutcome(env.scanner, job.workspace, s.content, c);
    OneFailing(Verify(env.scanner, job.workspace)[0]);
    OneTarget(job.workspace.drafts, s.id);
    OneDraftRewritten(job, env);
    OneOutcome(env.scanner, RewriteAll(job, [s.id], env, 0).workspace, s.content, c);
    FirstRoundRepeats(env, job, maxRounds);
  }

  lemma Plain(text: string)
    requires text != "" && !GoSpace(text[0]) && !GoSpace(text[|text| - 1])
    ensures Trim(text) == text
  {
  }

  /** So the repeat does happen: a fresh job of one draft, with a scanner and a model like that. */
  lemma RepeatCanHappen() returns (env: Env, job: Job)
    ensures Consistent(job)
    ensures forall maxRounds :: RoundLimit(maxRounds) >= 2 ==>
              AfterReground(env, job, maxRounds).stop == SameFingerprint
  {
    var c, text := Extracted("[1]", "p", "", "", ""), "A [1]";
    var s := Section("s", "a", 1, text, false, "", NeedsRevision, OtherDecision(""));
    env := Env(Scanner(text => text, text => [c], (c, sources) => Unresolved, (id, marker, n, paper) => "c"),
               (round, id) => text, "");
    Plain(text);
    Plain(s.id);
    assert Unmet(env.scanner, text, c) && env.revise(0, s.id) == text;
    job := InitialJob([s], [], [], [], [0, 0, 0, 0, 0, 0, 0]);
    FreshRepeats(env, s, c, [0, 0, 0, 0, 0, 0, 0]);
  }

  lemma FreshRepeats(env: Env, s: Section, c: Extracted, times: seq<nat>)
    requires |times| == 7 && Trim(s.id) != "" && !s.userEdited
    requires Unmet(env.scanner, s.content, c) && Trim(env.revise(0, s.id)) == s.content
    ensures var job := InitialJob([s], [], [], [], times);
            && Consistent(job)
            && forall maxRounds :: RoundLimit(maxRounds) >= 2 ==>
                 AfterReground(env, job, maxRounds).stop == SameFingerprint
  {
    var job := InitialJob([s], [], [], [], times);
    assert s.id != "";
    InitialConsistent([s], [], [], [], times);
    forall maxRounds | RoundLimit(maxRounds) >= 2 ensures AfterReground(env, job, maxRounds).stop == SameFingerprint {
      StubbornRepeats(env, job, c, maxRounds);
    }
  }

  /** Anything that is done to a job: an operation of its own, or a re-grounding. */
  datatype Turn = Operation(op: Op) | Regrounding(env: Env, maxRounds: int)

  function AfterTurn(job: Job, turn: Turn): Job {
    match turn
    case Operation(op) => Apply(job, op)
    case Regrounding(env, maxRounds) => AfterReground(env, job, maxRounds).job
  }

  function AfterTurns(job: Job, turns: seq<Turn>): Job {
    if |turns| == 0 then job else AfterTurn(AfterTurns(job, turns[..|turns| - 1]), turns[|turns| - 1])
  }

  // ---------- every history is a run of operations ----------

  lemma {:induction false} RunAppend(job: Job, a: seq<Op>, b: seq<Op>)
    ensures Run(job, a + b) == Run(Run(job, a), b)
  {
    if b == [] {
      assert a + b == a;
    } else {
      RunAppend(job, a, b[..|b| - 1]);
      assert (a + b)[..|a + b| - 1] == a + b[..|b| - 1];
    }
  }

  lemma RunOne(job: Job, op: Op)
    ensures Run(job, [op]) == Apply(job, op)
  {
    assert [op][..0] == [];
  }

  lemma {:induction false} RewritesAreRun(job: Job, ids: seq<string>, env: Env, round: nat) returns (ops: seq<Op>)
    ensures RewriteAll(job, ids, env, round) == Run(job, ops)
  {
    ops := [];
    if ids != [] {
      var last := ids[|ids| - 1];
      var op := Rewrite(last, env.revise(round, last), env.note);
      var front := RewritesAreRun(job, ids[..|ids| - 1], env, round);
      RunAppend(job, front, [op]);
      RunOne(Run(job, front), op);
      ops := front + [op];
    }
  }

  ghost predicate IsRun(a: Job, b: Job) { exists ops :: b == Run(a, ops) }

  lemma RunTrans(a: Job, b: Job, c: Job)
    requires IsRun(a, b) && IsRun(b, c)
    ensures IsRun(a, c)
  {
    var first :| b == Run(a, first);
    var second :| c == Run(b, second);
    RunAppend(a, first, second);
  }

  lemma RunNone(job: Job)
    ensures IsRun(job, job)
  {
    assert Run(job, []) == job;
  }

  ghost predicate RunningPass(pass: Passes) {
    forall j, k, p :: pass(j, k, p).GoOn? ==> IsRun(j, pass(j, k, p).next)
  }

  lemma {:induction false} RoundsAreRun(pass: Passes, job: Job, round: nat, max: nat, previous: string)
    requires round <= max && RunningPass(pass)
    ensures IsRun(job, Rounds(pass, job, round, max, previous).job)
    decreases max - round
  {
    if round < max && pass(job, round, previous).GoOn? {
      var next, fingerprint := pass(job, round, previous).next, pass(job, round, previous).fingerprint;
      RoundsAreRun(pass, next, round + 1, max, fingerprint);
      RunTrans(job, next, Rounds(pass, next, round + 1, max, fingerprint).job);
    } else {
      RunNone(job);
    }
  }

  /** A re-grounding does nothing that a run of section rewrites does not. */
  lemma RegroundIsRun(env: Env, job: Job, maxRounds: int)
    ensures IsRun(job, AfterReground(env, job, maxRounds).job)
  {
    forall j, k, p | PassesOf(env)(j, k, p).GoOn? ensures IsRun(j, PassesOf(env)(j, k, p).next) {
      var targets := Targets(j.workspace.drafts, FailingIds(Verify(env.scanner, j.workspace)));
      var ops := RewritesAreRun(j, targets, env, k);
    }
    RoundsAreRun(PassesOf(env), job, 0, RoundLimit(maxRounds), "");
  }

  /** Rewrites, edits, visual refreshes and re-groundings in any order lead only where runs of
      the three operations lead, so what every run keeps, every history keeps. */
  lemma {:induction false} TurnsAreRun(job: Job, turns: seq<Turn>)
    ensures IsRun(job, AfterTurns(job, turns))
  {
    if |turns| == 0 {
      RunNone(job);
    } else {
      var before := AfterTurns(job, turns[..|turns| - 1]);
      TurnsAreRun(job, turns[..|turns| - 1]);
      match turns[|turns| - 1] {
        case Operation(op) => RunOne(before, op);
        case Regrounding(env, maxRounds) => RegroundIsRun(env, before, maxRounds);
      }
      RunTrans(job, before, AfterTurns(job, turns));
    }
  }

  /** Every job reached from a fresh one by rewrites, edits, visual refreshes and re-groundings, in
      any order, has its views in agreement, but for the two that are set once: the manuscript bundle
      is the latest manuscript if and only if no rewrite or edit has succeeded. */
  lemma EveryReachableJobAgrees(drafts: seq<Section>, visuals: seq<Visual>, sources: seq<string>, tasks: seq<Task>,
                                times: seq<nat>, turns: seq<Turn>)
    requires |times| == 7 && UniqueSections(drafts)
    ensures var job := AfterTurns(InitialJob(drafts, visuals, sources, tasks, times), turns);
            var w := job.workspace;
            && Consistent(job)
            && (w.manuscriptBundle == w.latestManuscript <==> DraftsUntouched(w.audit))
            && |w.artifacts| > 4 && w.artifacts[4] == Fresh(Revision, times[4], TaskList(tasks))
  {
    var start := InitialJob(drafts, visuals, sources, tasks, times);
    TurnsAreRun(start, turns);
    var ops :| AfterTurns(start, turns) == Run(start, ops);
    ReachableConsistent(drafts, visuals, sources, tasks, times, ops);
    StaleViewsExactly(drafts, visuals, sources, tasks, times, ops);
  }

  /** Over rewrites, edits, visual refreshes and re-groundings in any order, from any job at all: no
      artifact or audit entry is lost or changed, and there is one manuscript snapshot per section
      version gained, one bundle per visual version, and one audit entry per artifact. */
  lemma TurnsGrow(job: Job, turns: seq<Turn>)
    ensures Grows(job.workspace, AfterTurns(job, turns).workspace)
  {
    TurnsAreRun(job, turns);
    var ops :| AfterTurns(job, turns) == Run(job, ops);
    RunGrows(job, ops);
  }

  /** A manual edit is authoritative: however often the job is re-grounded afterwards, the draft stays
      exactly as it was edited. */
  lemma {:induction false} EditIsKept(job: Job, turns: seq<Turn>, j: nat)
    requires Consistent(job) && j < |job.workspace.drafts| && job.workspace.drafts[j].userEdited
    requires forall k :: 0 <= k < |turns| ==> turns[k].Regrounding?
    ensures var after := AfterTurns(job, turns);
            && Consistent(after) && |after.workspace.drafts| == |job.workspace.drafts|
            && after.workspace.drafts[j] == job.workspace.drafts[j]
  {
    if |turns| > 0 {
      var front, last := turns[..|turns| - 1], turns[|turns| - 1];
      EditIsKept(job, front, j);
      RegroundKeepsEdit(AfterTurns(job, front), last.env, last.maxRounds, j);
    }
  }

  lemma RegroundKeepsEdit(job: Job, env: Env, maxRounds: int, j: nat)
    requires Consistent(job) && j < |job.workspace.drafts| && job.workspace.drafts[j].userEdited
    ensures var after := AfterReground(env, job, maxRounds).job;
            && Consistent(after) && |after.workspace.drafts| == |job.workspace.drafts|
            && after.workspace.drafts[j] == job.workspace.drafts[j]
  {
    Reground(env, job, maxRounds);
    var r := AfterReground(env, job, maxRounds);
    assert DraftRegrounded(env.scanner, SourcesOf(job.workspace.artifacts), job.workspace.drafts[j],
                           r.job.workspace.drafts[j], r.rounds);
  }

  // ---------- the loop ----------

  /** Part-way through a round, the next failing section can still be rewritten. */
  lemma MidRound(env: Env, job: Job, failing: seq<string>, i: nat, round: nat)
    requires Consistent(job) && failing == FailingIds(Verify(env.scanner, job.workspace)) && i < |failing|
    ensures RewriteFailure(RewriteAll(job, Targets(job.workspace.drafts, failing[..i]), env, round), failing[i]).None?
  {
    var w := job.workspace;
    var done := Targets(w.drafts, failing[..i]);
    FailingIdsFacts(Verify(env.scanner, w));
    TargetsFacts(w.drafts, failing[..i]);
    forall k | 0 <= k < |done| ensures done[k] != "" && HasDraft(w.drafts, done[k]) {
      assert done[k] in done;
      FailingIdsAreDrafts(env.scanner, w, done[k]);
    }
    RewriteAllEffect(job, done, env, round);
    assert failing[i] in failing;
    FailingIdsAreDrafts(env.scanner, w, failing[i]);
    StillThere(job, RewriteAll(job, done, env, round), done, failing[i]);
  }

  lemma StillThere(a: Job, b: Job, ids: seq<string>, id: string)
    requires RewroteOnly(a, b, ids) && id != "" && HasDraft(a.workspace.drafts, id)
    ensures RewriteFailure(b, id).None?
  {
    var j :| 0 <= j < |a.workspace.drafts| && a.workspace.drafts[j].id == id;
    assert DraftMoved(a.workspace.drafts[j], b.workspace.drafts[j], a.workspace.drafts[j].id in ids);
    assert b.workspace.drafts[j].id == id;
  }

  lemma NextTarget(drafts: seq<Section>, failing: seq<string>, i: nat)
    requires i < |failing|
    ensures Targets(drafts, failing[..i + 1]) ==
            if UserEditedId(drafts, failing[i]) then Targets(drafts, failing[..i])
            else Targets(drafts, failing[..i]) + [failing[i]]
  {
    assert failing[..i + 1][..i] == failing[..i];
  }

  lemma NextRewrite(job: Job, ids: seq<string>, id: string, env: Env, round: nat)
    ensures RewriteAll(job, ids + [id], env, round) ==
              AfterRewrite(RewriteAll(job, ids, env, round), id, env.revise(round, id), env.note)
  {
    assert (ids + [id])[..|ids|] == ids;
  }

  /** One round's rewrites; `changed` when there was something to rewrite. */
  method RewriteFailing(job: PaperJob, env: Env, round: nat, failing: seq<string>) returns (r: Result<bool, Failure>)
    modifies job
    ensures r.Ok? ==>
              job.State() == RewriteAll(old(job.State()), Targets(old(job.workspace).drafts, failing), env, round)
    ensures r.Ok? ==> (r.value <==> Targets(old(job.workspace).drafts, failing) != [])
    ensures Consistent(old(job.State())) && failing == FailingIds(Verify(env.scanner, old(job.workspace))) ==> r.Ok?
  {
    var drafts := job.workspace.drafts;
    ghost var start := job.State();
    var changed := false;
    for i := 0 to |failing|
      invariant job.State() == RewriteAll(start, Targets(drafts, failing[..i]), env, round)
      invariant changed <==> Targets(drafts, failing[..i]) != []
    {
      NextTarget(drafts, failing, i);
      if UserEditedId(drafts, failing[i]) { continue; }
      NextRewrite(start, Targets(drafts, failing[..i]), failing[i], env, round);
      if Consistent(start) && failing == FailingIds(Verify(env.scanner, start.workspace)) {
        MidRound(env, start, failing, i, round);
      }
      var one := job.RewriteSection(failing[i], env.revise(round, failing[i]), env.note);
      if one.Err? { return Err(one.error); }
      changed := true;
    }
    assert failing[..|failing|] == failing;
    r := Ok(changed);
  }

  /** One turn of the loop: `r` says whether to stop; either way the rest of the loop from the new
      state is what was left of the loop before. */
  method RegroundPass(job: PaperJob, env: Env, ghost pass: Passes, ghost good: Job -> bool, round: nat,
                      ghost limit: nat, previous: string)
    returns (r: Result<bool, Failure>, fingerprint: string)
    requires pass == PassesOf(env) && Closed(pass, good) && OnlyConsistent(good) && round < limit
    modifies job
    ensures r.Ok? ==>
              Rounds(pass, old(job.State()), round, limit, previous).job ==
              if r.value then job.State() else Rounds(pass, job.State(), round + 1, limit, fingerprint).job
    ensures good(old(job.State())) ==> r.Ok? && good(job.State())
  {
    fingerprint := "";
    ghost var now := pass(job.State(), round, previous);
    assert now == PassOf(env, job.State(), round, previous);
    var outcomes := VerifyWorkspace(env.scanner, job.workspace);
    var summary, _ := SummarizeOutcomes(outcomes);
    if summary.ungrounded == 0 { return Ok(true), fingerprint; }
    fingerprint := Fingerprint(outcomes);
    if fingerprint == previous { return Ok(true), fingerprint; }
    var failing := FailingSectionIds(outcomes);
    var changed := RewriteFailing(job, env, round, failing);
    if changed.Err? { return Err(changed.error), fingerprint; }
    r := Ok(!changed.value);
  }

  datatype Report = Report(summary: Summary, ungrounded: seq<Outcome>, rounds: int)

  /** The end of re-grounding.  The workspace is copied, the audit entry goes to the job's
      workspace, and the copy is then written back over it: the entry never reaches the job. */
  method FinishReground(job: PaperJob, env: Env, limit: int) returns (report: Report)
    modifies job
    ensures job.State() == old(job.State())
    ensures report == Report(Summarize(Verify(env.scanner, job.workspace)),
                             Unverified(Verify(env.scanner, job.workspace)), limit)
  {
    var kept := job.workspace;
    job.AppendAudit(CitationsRegrounded, AnyUser);
    job.workspace := kept;
    var outcomes := VerifyWorkspace(env.scanner, job.workspace);
    var summary, ungrounded := SummarizeOutcomes(outcomes);
    report := Report(summary, ungrounded, limit);
  }

  /** Every job a run can meet is in `good`, if the first one is. */
  ghost predicate Closed(pass: Passes, good: Job -> bool) {
    forall j, k, p :: good(j) && pass(j, k, p).GoOn? ==> good(pass(j, k, p).next)
  }

  ghost predicate OnlyConsistent(good: Job -> bool) { forall j :: good(j) ==> Consistent(j) }

  lemma ConsistentIsClosed(env: Env)
    ensures Closed(PassesOf(env), job => Consistent(job))
  {
    forall j, k, p | Consistent(j) && PassesOf(env)(j, k, p).GoOn? ensures Consistent(PassesOf(env)(j, k, p).next) {
      PassIsGood(env, j, k, p);
    }
  }

  /** The loop itself; the error is a rewrite's. */
  method RegroundRounds(job: PaperJob, env: Env, ghost pass: Passes, ghost good: Job -> bool, limit: nat)
    returns (failed: Option<Failure>)
    requires pass == PassesOf(env) && Closed(pass, good) && OnlyConsistent(good)
    modifies job
    ensures failed.None? ==> job.State() == Rounds(pass, old(job.State()), 0, limit, "").job
    ensures good(old(job.State())) ==> failed.None?
  {
    ghost var rest := Rounds(pass, job.State(), 0, limit, "").job;
    ghost var fine := good(job.State());
    var previous := "";
    failed := None;
    var round: nat := 0;
    var running := true;
    while running && round < limit
      invariant fine ==> failed.None? && good(job.State())
      invariant round <= limit && (failed.Some? ==> !running)
      invariant failed.None? ==>
                  rest == if running then Rounds(pass, job.State(), round, limit, previous).job else job.State()
      decreases limit - round, running
    {
      var stop, fingerprint := RegroundPass(job, env, pass, good, round, limit, previous);
      if stop.Err? { failed := Some(stop.error); }
      running := stop.Ok? && !stop.value;
      if running { previous, round := fingerprint, round + 1; }
    }
  }

  /** The reported summary and list are those of the job returned; `rounds` is the limit, not the
      number of rounds run. */
  method RegroundJob(job: PaperJob, env: Env, maxRounds: int) returns (r: Result<Report, Failure>)
    modifies job
    ensures r.Ok? ==> job.State() == AfterReground(env, old(job.State()), maxRounds).job
    ensures r.Ok? ==> r.value == Report(Summarize(Verify(env.scanner, job.workspace)),
                                        Unverified(Verify(env.scanner, job.workspace)), RoundLimit(maxRounds))
    ensures Consistent(old(job.State())) ==> r.Ok? && Consistent(job.State())
  {
    ConsistentIsClosed(env);
    if Consistent(job.State()) { Reground(env, job.State(), maxRounds); }
    var failed := RegroundRounds(job, env, PassesOf(env), job => Consistent(job), RoundLimit(maxRounds));
    if failed.Some? { return Err(failed.value); }
    var report := FinishReground(job, env, RoundLimit(maxRounds));
    r := Ok(report);
  }
}
