/** What the operations on a full-paper job write: an account of one draft, one visual and one task at a
    time, told from the operations alone, and the proof that every view of the job follows it. */
module FullPaperContents {
  import opened Strings
  import opened Wrappers
  import opened FullPaperJob

  // ---------- version numbers ----------

  ghost function DigitValue(c: char): int { c as int - '0' as int }

  /** What a decimal numeral means. */
  ghost function Value(s: string): int {
    if s == "" then 0
    else if s[0] == '-' then -Value(s[1..])
    else Value(s[..|s| - 1]) * 10 + DigitValue(s[|s| - 1])
  }

  lemma {:induction false} ShowDigits(n: nat)
    ensures Show(n)[0] != '-' && Value(Show(n)) == n
  {
    if n >= 10 {
      ShowDigits(n / 10);
      assert Show(n)[..|Show(n)| - 1] == Show(n / 10);
    } else {
      assert Show(n)[..0] == "";
    }
  }

  /** The number in a versioned id can be read back, so different versions have different ids. */
  lemma ShowReads(n: int)
    ensures Value(Show(n)) == n
  {
    if n < 0 {
      ShowDigits(-n);
      assert Show(n)[1..] == Show(-n);
    } else {
      ShowDigits(n);
    }
  }

  ghost function Kinds(artifacts: seq<Artifact>): seq<Kind> {
    seq(|artifacts|, i requires 0 <= i < |artifacts| => artifacts[i].kind)
  }

  /** The version that names a new snapshot or bundle counts the artifacts of its kind. */
  lemma {:induction false} HistoryVersionIs(artifacts: seq<Artifact>, kind: Kind)
    ensures HistoryVersion(artifacts, kind) == multiset(Kinds(artifacts))[kind]
  {
    if artifacts != [] {
      HistoryVersionIs(artifacts[..|artifacts| - 1], kind);
      assert Kinds(artifacts) == Kinds(artifacts[..|artifacts| - 1]) + [artifacts[|artifacts| - 1].kind];
    }
  }

  lemma TypeNamesAre()
    ensures TypeName(Dossier) == "dossier" && TypeName(Manuscript) == "manuscript_snapshot"
    ensures TypeName(VisualBundle) == "visual_bundle" && TypeName(Critique) == "critique_report"
    ensures TypeName(Revision) == "revision_queue" && TypeName(SourceBundle) == "source_bundle"
    ensures TypeName(Trajectory) == "retrieval_trajectory"
  {
  }

  /** The seven artifacts of a fresh job, under ids made of their type and the clock. */
  lemma FreshArtifacts(drafts: seq<Section>, visuals: seq<Visual>, sources: seq<string>, tasks: seq<Task>,
                       times: seq<nat>, i: nat)
    requires |times| == 7 && i < 7
    ensures var a := InitialArtifacts(drafts, visuals, sources, tasks, times);
            && a[i].id == TypeName(a[i].kind) + "_" + Show(times[i])
            && (a[i].kind, a[i].content) ==
               match i
               case 0 => (Dossier, Other)
               case 1 => (Manuscript, Drafts(drafts))
               case 2 => (VisualBundle, Visuals(visuals))
               case 3 => (Critique, Other)
               case 4 => (Revision, TaskList(tasks))
               case 5 => (SourceBundle, Sources(sources))
               case _ => (Trajectory, Other)
  {
  }

  /** A fresh job shows the drafts, visuals and tasks given, and waits for review of manuscript, visuals
      and critique. */
  lemma FreshJobIs(drafts: seq<Section>, visuals: seq<Visual>, sources: seq<string>, tasks: seq<Task>, times: seq<nat>)
    requires |times| == 7
    ensures var a, job := InitialArtifacts(drafts, visuals, sources, tasks, times),
                          InitialJob(drafts, visuals, sources, tasks, times);
            var w := job.workspace;
            && w.drafts == drafts && w.visuals == visuals && w.tasks == tasks && w.queue == Some(tasks)
            && w.artifacts == job.artifacts == a && w.latestManuscript == a[1] && w.latestVisual == a[2]
            && Awaits(job, Checkpoint(InitialReview, ManuscriptSurface, [a[1].id, a[2].id, a[3].id]))
  {
  }

  // ---------- when an operation succeeds ----------

  /** An operation succeeds when it names something that is there, and an edit when it has content. */
  lemma SucceedsExactly(job: Job, op: Op)
    ensures OpFailure(job, op).None? <==>
            && op.id != ""
            && (op.Edit? ==> Trim(op.stripped) != "")
            && if op.RegenerateVisual? then
                 exists i :: 0 <= i < |job.workspace.visuals| && job.workspace.visuals[i].artifactId == op.id
               else exists i :: 0 <= i < |job.workspace.drafts| && job.workspace.drafts[i].id == op.id
  {
    var w := job.workspace;
    if op.RegenerateVisual? {
      var i := VisualIndex(w.visuals, op.id);
      assert i < |w.visuals| ==> w.visuals[i].artifactId == op.id;
    } else {
      assert DraftIndex(w.drafts, op.id) < |w.drafts| ==> w.drafts[DraftIndex(w.drafts, op.id)].id == op.id;
    }
  }

  // ---------- one draft ----------

  /** A rewrite stores the trimmed revision when there is one and there was a text to revise, and
      otherwise the trimmed old text followed by a note of the instructions. */
  ghost function Written(text: string, revised: string, note: string): string {
    if Trim(text) == "" || Trim(revised) == "" then Trim(text) + "\n\nRevision focus: " + note else Trim(revised)
  }

  /** What one operation makes of one draft. */
  ghost function DraftAfter(s: Section, op: Op): Section {
    match op
    case Rewrite(id, revised, note) =>
      if id != s.id then s
      else Section(s.id, s.artifactId + "_v" + Show(s.version + 1), s.version + 1, Written(s.content, revised, note),
                   s.userEdited, s.editedBy, ReadyForReview, Rewritten)
    case Edit(id, stripped, userId) =>
      if id != s.id || Trim(stripped) == "" then s
      else Section(s.id, s.artifactId + "_v" + Show(s.version + 1), s.version + 1, Trim(stripped),
                   true, userId, s.reviewStatus, UserEdited)
    case RegenerateVisual(_, _, _, _) => s
  }

  ghost function DraftRun(s: Section, ops: seq<Op>): Section {
    if ops == [] then s else DraftAfter(DraftRun(s, ops[..|ops| - 1]), ops[|ops| - 1])
  }

  lemma DraftApplied(job: Job, op: Op, j: nat)
    requires Consistent(job) && j < |job.workspace.drafts|
    ensures var drafts := Apply(job, op).workspace.drafts;
            |drafts| == |job.workspace.drafts| && drafts[j] == DraftAfter(job.workspace.drafts[j], op)
  {
    var w := job.workspace;
    if op.RegenerateVisual? || op.id != w.drafts[j].id {
      OthersUntouched(job, op, j);
    } else {
      DraftIsAt(w.drafts, op.id, j);
    }
  }

  lemma DraftIsAt(drafts: seq<Section>, id: string, j: nat)
    requires UniqueSections(drafts) && j < |drafts| && drafts[j].id == id
    ensures DraftIndex(drafts, id) == j
  {
  }

  /** Draft j of the job reads `s`: in the draft list, in the drafting map and in the latest snapshot. */
  ghost predicate ReadsAs(w: Workspace, j: nat, s: Section) {
    && j < |w.drafts| && w.drafts[j] == s
    && s.id in w.sections && w.sections[s.id] == s
    && w.latestManuscript.content.Drafts?
    && j < |w.latestManuscript.content.drafts| && w.latestManuscript.content.drafts[j] == s
  }

  /** After any run every draft is what the operations naming it make of it, one after the other - its
      text, version, marks and id - and reads so in every view. */
  lemma {:induction false} RunWrites(job: Job, ops: seq<Op>, j: nat)
    requires Consistent(job) && j < |job.workspace.drafts|
    ensures var w := Run(job, ops).workspace;
            |w.drafts| == |job.workspace.drafts| && ReadsAs(w, j, DraftRun(job.workspace.drafts[j], ops))
  {
    if ops != [] {
      var before := Run(job, ops[..|ops| - 1]);
      RunWrites(job, ops[..|ops| - 1], j);
      RunConsistent(job, ops[..|ops| - 1]);
      DraftApplied(before, ops[|ops| - 1], j);
      ApplyConsistent(before, ops[|ops| - 1]);
    }
  }

  /** In particular the text: the last successful operation that named the draft decides it. */
  lemma LastWriteReads(job: Job, ops: seq<Op>, op: Op, j: nat)
    requires Consistent(job) && j < |job.workspace.drafts| && !op.RegenerateVisual?
    requires op.id == job.workspace.drafts[j].id && (op.Edit? ==> Trim(op.stripped) != "")
    ensures var s, t := Run(job, ops).workspace.drafts, Run(job, ops + [op]).workspace;
            && |s| == |t.drafts| == |job.workspace.drafts|
            && ReadsAs(t, j, t.drafts[j])
            && t.drafts[j].content == (if op.Edit? then Trim(op.stripped)
                                       else Written(s[j].content, op.revised, op.note))
  {
    RunWrites(job, ops, j);
    RunWrites(job, ops + [op], j);
    DraftRunId(job.workspace.drafts[j], ops);
    assert (ops + [op])[..|ops|] == ops;
  }

  lemma {:induction false} DraftRunId(s: Section, ops: seq<Op>)
    ensures DraftRun(s, ops).id == s.id
  {
    if ops != [] { DraftRunId(s, ops[..|ops| - 1]); }
  }

  // ---------- one visual ----------

  /** A refresh of a visual: the caption grows by the note, the packets are the matched ones, or the old
      ones when none is matched, and then the visual needs revision. */
  ghost function Refreshed(v: Visual, note: string, spec: string, packets: seq<string>): Visual {
    var found := Unique(packets);
    Visual(v.artifactId + "_v" + Show(v.version + 1), v.version + 1, Trim(v.caption + " " + note), spec,
           if found == [] then NeedsRevision else ReadyForReview,
           if found == [] then v.packetIds else found, Regenerated)
  }

  /** A successful refresh changes the first visual of that id and no other. */
  lemma VisualApplied(job: Job, op: Op) returns (i: nat)
    requires op.RegenerateVisual? && OpFailure(job, op).None?
    ensures var v := job.workspace.visuals;
            && i < |v| && v[i].artifactId == op.id && (forall k :: 0 <= k < i ==> v[k].artifactId != op.id)
            && Apply(job, op).workspace.visuals == v[i := Refreshed(v[i], op.note, op.spec, op.packets)]
  {
    i := VisualIndex(job.workspace.visuals, op.id);
  }

  /** The latest bundle shows the visuals as they are, after any run. */
  lemma BundleShows(job: Job, ops: seq<Op>)
    requires Consistent(job)
    ensures var w := Run(job, ops).workspace; w.latestVisual.content == Visuals(w.visuals)
  {
    RunConsistent(job, ops);
  }

  // ---------- tasks, review and audit ----------

  /** The tasks a successful operation completes: those of the section rewritten or the visual refreshed. */
  lemma TasksApplied(job: Job, op: Op, k: nat)
    requires OpFailure(job, op).None? && k < |job.workspace.tasks|
    ensures var before, after := job.workspace.tasks, Apply(job, op).workspace.tasks;
            && |after| == |before|
            && Apply(job, op).workspace.queue.Some? == job.workspace.queue.Some?
            && (!op.Edit? && job.workspace.queue.Some? ==> Apply(job, op).workspace.queue == Some(after))
            && after[k].target == before[k].target && after[k].targetId == before[k].targetId
            && (after[k].completed <==>
                  || before[k].completed
                  || (before[k].targetId == op.id
                      && ((op.Rewrite? && before[k].target == SectionTarget)
                          || (op.RegenerateVisual? && before[k].target == VisualTarget))))
  {
  }

  /** The entry a successful operation adds to the audit log. */
  ghost function EntryOf(job: Job, op: Op): AuditEntry {
    match op
    case Rewrite(_, _, _) => AuditEntry(SectionRewritten, AnyUser, PeerReviewer)
    case Edit(_, _, userId) => AuditEntry(SectionEdited, if userId == "" then AnyUser else User(userId), job.stage)
    case RegenerateVisual(_, _, _, _) => AuditEntry(VisualRegenerated, AnyUser, PeerReviewer)
  }

  /** A successful operation adds its entry to the audit log. */
  lemma AuditApplied(job: Job, op: Op)
    requires OpFailure(job, op).None?
    ensures Apply(job, op).workspace.audit == job.workspace.audit + [EntryOf(job, op)]
  {
  }

  /** A new snapshot is named after the latest one and the number of manuscripts; no visual changes. */
  lemma SnapshotApplied(job: Job, op: Op)
    requires OpFailure(job, op).None? && !op.RegenerateVisual?
    ensures var v, w := job.workspace, Apply(job, op).workspace;
            && w.latestVisual == v.latestVisual && w.visuals == v.visuals
            && w.latestManuscript.id
               == v.latestManuscript.id + "_v" + Show(HistoryVersion(v.artifacts, Manuscript) + 1)
  {
  }

  /** A new bundle is named after the latest one and the number of bundles; no draft changes. */
  lemma BundleApplied(job: Job, op: Op)
    requires OpFailure(job, op).None? && op.RegenerateVisual?
    ensures var v, w := job.workspace, Apply(job, op).workspace;
            && w.latestManuscript == v.latestManuscript && w.drafts == v.drafts
            && w.latestVisual.id == v.latestVisual.id + "_v" + Show(HistoryVersion(v.artifacts, VisualBundle) + 1)
  {
  }

  /** The review a job waits for: its checkpoint, twice, and its status, twice. */
  ghost predicate Awaits(job: Job, pending: Checkpoint) {
    && job.pendingCheckpoint == job.workspace.pendingReviewTarget == pending
    && job.status == job.workspace.status == AwaitingApproval && job.stage == PeerReviewer
  }

  /** A successful rewrite or refresh asks for peer review of the new snapshot or bundle, everywhere the
      job says so; an edit asks for nothing. */
  lemma ReviewApplied(job: Job, op: Op)
    requires OpFailure(job, op).None?
    ensures var after := Apply(job, op);
            match op
            case Edit(_, _, _) =>
              && after.status == job.status && after.stage == job.stage
              && after.workspace.status == job.workspace.status
              && after.pendingCheckpoint == job.pendingCheckpoint
              && after.workspace.pendingReviewTarget == job.workspace.pendingReviewTarget
            case Rewrite(_, _, _) =>
              Awaits(after, Checkpoint(RevisedManuscript, ManuscriptSurface, [after.workspace.latestManuscript.id]))
            case RegenerateVisual(_, _, _, _) =>
              Awaits(after, Checkpoint(RegeneratedVisuals, VisualSurface, [after.workspace.latestVisual.id]))
  {
  }
}
