/** The full-paper job: a document whose sections, visuals and artifacts are kept in several
    redundant views.  Each operation is a method proved against a function on the job's value;
    the theorems say which views agree in every reachable job. */
module FullPaperJob {
  import opened Strings
  import opened Wrappers

  // ---------- the document ----------

  datatype Kind = Dossier | Manuscript | VisualBundle | Critique | Revision | SourceBundle | Trajectory

  function TypeName(k: Kind): string {
    match k
    case Dossier => "dossier"
    case Manuscript => "manuscript_snapshot"
    case VisualBundle => "visual_bundle"
    case Critique => "critique_report"
    case Revision => "revision_queue"
    case SourceBundle => "source_bundle"
    case Trajectory => "retrieval_trajectory"
  }

  datatype ReviewStatus = ReadyForReview | NeedsRevision | OtherReviewStatus(name: string)

  datatype Decision = Rewritten | UserEdited | Regenerated | OtherDecision(name: string)

  datatype Section = Section(id: string, artifactId: string, version: int, content: string,
                             userEdited: bool, editedBy: string, reviewStatus: ReviewStatus, decision: Decision)

  datatype Visual = Visual(artifactId: string, version: int, caption: string, spec: string,
                           reviewStatus: ReviewStatus, packetIds: seq<string>, decision: Decision)

  datatype Content =
    | Drafts(drafts: seq<Section>) | Visuals(visuals: seq<Visual>) | Sources(sources: seq<string>)
    | TaskList(tasks: seq<Task>) | Other

  datatype Artifact = Artifact(id: string, kind: Kind, content: Content)

  datatype Surface = ManuscriptSurface | VisualSurface

  datatype Review = InitialReview | RevisedManuscript | RegeneratedVisuals

  datatype Checkpoint = Checkpoint(review: Review, surface: Surface, artifactIds: seq<string>)

  datatype Target = SectionTarget | VisualTarget | OtherTarget(name: string)

  datatype Task = Task(target: Target, targetId: string, completed: bool)

  datatype Stage = PeerReviewer | OtherStage(name: string)

  datatype Status = AwaitingApproval | OtherStatus(name: string)

  datatype Action = Started | SectionRewritten | SectionEdited | VisualRegenerated | CitationsRegrounded

  datatype Actor = System | AnyUser | User(id: string)

  datatype AuditEntry = AuditEntry(action: Action, actor: Actor, stage: Stage)

  /** `sections` is the drafting map; `queue` holds the tasks of the last revision artifact, if any;
      `manuscriptBundle` is one more reference to a manuscript. */
  datatype Workspace = Workspace(
    drafts: seq<Section>, sections: map<string, Section>, sectionArtifactIds: seq<string>,
    visuals: seq<Visual>, artifacts: seq<Artifact>, latestManuscript: Artifact, latestVisual: Artifact,
    manuscriptBundle: Artifact,
    pendingReviewTarget: Checkpoint, tasks: seq<Task>, queue: Option<seq<Task>>,
    audit: seq<AuditEntry>, status: Status)

  datatype Job = Job(workspace: Workspace, artifacts: seq<Artifact>, artifactIds: seq<string>,
                     pendingCheckpoint: Checkpoint, status: Status, stage: Stage)

  datatype Failure = MissingId | NothingThere | NotFound | MissingContent

  // ---------- identifiers ----------

  function Digit(d: nat): char
    requires d < 10
  {
    '0' + d as char
  }

  /** Decimal notation, as Go's %d writes it. */
  function Show(n: int): (r: string)
    ensures r != "" && '0' <= r[|r| - 1] <= '9'
    decreases n < 0, if n < 0 then -n else n
  {
    if n < 0 then "-" + Show(-n)
    else if n < 10 then [Digit(n)]
    else Show(n / 10) + [Digit(n % 10)]
  }

  function Versioned(id: string, version: int): string { id + "_v" + Show(version) }

  function HistoryVersion(artifacts: seq<Artifact>, kind: Kind): nat {
    if artifacts == [] then 0
    else HistoryVersion(artifacts[..|artifacts| - 1], kind) + if artifacts[|artifacts| - 1].kind == kind then 1 else 0
  }

  function Ids(artifacts: seq<Artifact>): (r: seq<string>)
    ensures |r| == |artifacts| && forall i :: 0 <= i < |r| ==> r[i] == artifacts[i].id
  {
    seq(|artifacts|, i requires 0 <= i < |artifacts| => artifacts[i].id)
  }

  // ---------- the operations on values ----------

  /** First draft with this section id; the length when there is none. */
  function DraftIndex(drafts: seq<Section>, id: string): (i: nat)
    ensures i <= |drafts| && (i < |drafts| ==> drafts[i].id == id)
    ensures forall j :: 0 <= j < i ==> drafts[j].id != id
  {
    if drafts == [] || drafts[0].id == id then 0 else 1 + DraftIndex(drafts[1..], id)
  }

  function VisualIndex(visuals: seq<Visual>, id: string): (i: nat)
    ensures i <= |visuals| && (i < |visuals| ==> visuals[i].artifactId == id)
    ensures forall j :: 0 <= j < i ==> visuals[j].artifactId != id
  {
    if visuals == [] || visuals[0].artifactId == id then 0 else 1 + VisualIndex(visuals[1..], id)
  }

  function CompleteTasks(tasks: seq<Task>, target: Target, targetId: string): (r: seq<Task>)
    ensures |r| == |tasks|
  {
    seq(|tasks|, i requires 0 <= i < |tasks| =>
      if tasks[i].target == target && tasks[i].targetId == targetId then tasks[i].(completed := true) else tasks[i])
  }

  function NextSnapshot(w: Workspace, drafts: seq<Section>): Artifact {
    Artifact(Versioned(w.latestManuscript.id, HistoryVersion(w.artifacts, Manuscript) + 1), Manuscript, Drafts(drafts))
  }

  function NextBundle(w: Workspace, visuals: seq<Visual>): Artifact {
    Artifact(Versioned(w.latestVisual.id, HistoryVersion(w.artifacts, VisualBundle) + 1), VisualBundle,
             Visuals(visuals))
  }

  /** Draft i replaced in every view of the sections, with a new manuscript snapshot. */
  function WithDraft(w: Workspace, i: nat, s: Section): Workspace
    requires i < |w.drafts|
  {
    var drafts := w.drafts[i := s];
    var manuscript := NextSnapshot(w, drafts);
    w.(drafts := drafts, sections := w.sections[s.id := s],
       sectionArtifactIds := Unique(w.sectionArtifactIds + [s.artifactId]),
       artifacts := w.artifacts + [manuscript], latestManuscript := manuscript)
  }

  function WithVisual(w: Workspace, i: nat, v: Visual): Workspace
    requires i < |w.visuals|
  {
    var visuals := w.visuals[i := v];
    var bundle := NextBundle(w, visuals);
    w.(visuals := visuals, artifacts := w.artifacts + [bundle], latestVisual := bundle)
  }

  function Audited(w: Workspace, action: Action, actor: Actor, stage: Stage): Workspace {
    w.(audit := w.audit + [AuditEntry(action, actor, stage)])
  }

  /** The rewritten text: the model's revision, or the deterministic annotation when there is none.
      `note` is the instruction given, or the default one. */
  function RewrittenContent(content: string, revised: string, note: string): string {
    var original := Trim(content);
    if original != "" && Trim(revised) != "" then Trim(revised) else original + "\n\nRevision focus: " + note
  }

  function RewrittenDraft(s: Section, revised: string, note: string): Section {
    s.(artifactId := Versioned(s.artifactId, s.version + 1), version := s.version + 1,
       content := RewrittenContent(s.content, revised, note),
       reviewStatus := ReadyForReview, decision := Rewritten)
  }

  function EditedDraft(s: Section, content: string, userId: string): Section {
    s.(artifactId := Versioned(s.artifactId, s.version + 1), version := s.version + 1, content := content,
       userEdited := true, editedBy := userId, decision := UserEdited)
  }

  function ReviewDrafts(w: Workspace, target: Target, targetId: string, pending: Checkpoint): Workspace {
    var tasks := CompleteTasks(w.tasks, target, targetId);
    w.(tasks := tasks, queue := if w.queue.Some? then Some(tasks) else None,
       pendingReviewTarget := pending, status := AwaitingApproval)
  }

  /** The job once its workspace asks for peer review. */
  function UnderReview(w: Workspace): Job {
    Job(w, w.artifacts, Unique(Ids(w.artifacts)), w.pendingReviewTarget, AwaitingApproval, PeerReviewer)
  }

  function RewriteFailure(job: Job, id: string): Option<Failure> {
    if id == "" then Some(MissingId)
    else if job.workspace.drafts == [] then Some(NothingThere)
    else if DraftIndex(job.workspace.drafts, id) == |job.workspace.drafts| then Some(NotFound)
    else None
  }

  function AfterRewrite(job: Job, id: string, revised: string, note: string): Job {
    if RewriteFailure(job, id).Some? then job
    else
      var i := DraftIndex(job.workspace.drafts, id);
      var w := WithDraft(job.workspace, i, RewrittenDraft(job.workspace.drafts[i], revised, note));
      var pending := Checkpoint(RevisedManuscript, ManuscriptSurface, [w.latestManuscript.id]);
      UnderReview(Audited(ReviewDrafts(w, SectionTarget, id, pending), SectionRewritten, AnyUser, PeerReviewer))
  }

  function EditFailure(job: Job, id: string, stripped: string): Option<Failure> {
    if id == "" then Some(MissingId)
    else if Trim(stripped) == "" then Some(MissingContent)
    else RewriteFailure(job, id)
  }

  /** A manual edit: no checkpoint, no status change. */
  function AfterEdit(job: Job, id: string, stripped: string, userId: string): Job {
    if EditFailure(job, id, stripped).Some? then job
    else
      var i := DraftIndex(job.workspace.drafts, id);
      var w := Audited(WithDraft(job.workspace, i, EditedDraft(job.workspace.drafts[i], Trim(stripped), userId)),
                       SectionEdited, if userId != "" then User(userId) else AnyUser, job.stage);
      job.(workspace := w, artifacts := w.artifacts, artifactIds := Unique(Ids(w.artifacts)))
  }

  /** The new specification and packets of a regenerated visual are the evidence matcher's. */
  function RegeneratedVisual(v: Visual, note: string, spec: string, packets: seq<string>): Visual {
    var grounded := Unique(packets);
    v.(artifactId := Versioned(v.artifactId, v.version + 1), version := v.version + 1,
       caption := Trim(v.caption + " " + note),
       spec := spec, decision := Regenerated,
       reviewStatus := if grounded == [] then NeedsRevision else ReadyForReview,
       packetIds := if grounded == [] then v.packetIds else grounded)
  }

  function VisualFailure(job: Job, id: string): Option<Failure> {
    if id == "" then Some(MissingId)
    else if job.workspace.visuals == [] then Some(NothingThere)
    else if VisualIndex(job.workspace.visuals, id) == |job.workspace.visuals| then Some(NotFound)
    else None
  }

  function AfterVisual(job: Job, id: string, note: string, spec: string, packets: seq<string>): Job {
    if VisualFailure(job, id).Some? then job
    else
      var i := VisualIndex(job.workspace.visuals, id);
      var w := WithVisual(job.workspace, i, RegeneratedVisual(job.workspace.visuals[i], note, spec, packets));
      var pending := Checkpoint(RegeneratedVisuals, VisualSurface, [w.latestVisual.id]);
      UnderReview(Audited(ReviewDrafts(w, VisualTarget, id, pending), VisualRegenerated, AnyUser, PeerReviewer))
  }

  // ---------- the initial job ----------

  /** The drafting map of a fresh workspace: later drafts with the same id win, blank ids are skipped. */
  function DraftMap(drafts: seq<Section>): map<string, Section> {
    if drafts == [] then map[]
    else
      var last := drafts[|drafts| - 1];
      var rest := DraftMap(drafts[..|drafts| - 1]);
      if last.id == "" then rest else rest[last.id := last]
  }

  function Fresh(kind: Kind, time: nat, content: Content): Artifact {
    Artifact(TypeName(kind) + "_" + Show(time), kind, content)
  }

  function KindAt(i: nat): Kind
    requires i < 7
  {
    match i
    case 0 => Dossier
    case 1 => Manuscript
    case 2 => VisualBundle
    case 3 => Critique
    case 4 => Revision
    case 5 => SourceBundle
    case _ => Trajectory
  }

  /** `times` are the clock readings stamped into the seven artifact ids. */
  function InitialArtifacts(drafts: seq<Section>, visuals: seq<Visual>, sources: seq<string>, tasks: seq<Task>,
                            times: seq<nat>): (r: seq<Artifact>)
    requires |times| == 7
    ensures |r| == 7 && forall i :: 0 <= i < 7 ==> r[i] == Fresh(KindAt(i), times[i], r[i].content)
  {
    [Fresh(Dossier, times[0], Other), Fresh(Manuscript, times[1], Drafts(drafts)),
     Fresh(VisualBundle, times[2], Visuals(visuals)), Fresh(Critique, times[3], Other),
     Fresh(Revision, times[4], TaskList(tasks)), Fresh(SourceBundle, times[5], Sources(sources)),
     Fresh(Trajectory, times[6], Other)]
  }

  function InitialWorkspace(drafts: seq<Section>, visuals: seq<Visual>, artifacts: seq<Artifact>,
                            tasks: seq<Task>): Workspace
    requires |artifacts| == 7
  {
    var pending := Checkpoint(InitialReview, ManuscriptSurface, [artifacts[1].id, artifacts[2].id, artifacts[3].id]);
    Workspace(drafts, DraftMap(drafts), seq(|drafts|, i requires 0 <= i < |drafts| => drafts[i].artifactId),
              visuals, artifacts, artifacts[1], artifacts[2], artifacts[1], pending, tasks, Some(tasks),
              [AuditEntry(Started, System, PeerReviewer)], AwaitingApproval)
  }

  function InitialJob(drafts: seq<Section>, visuals: seq<Visual>, sources: seq<string>, tasks: seq<Task>,
                      times: seq<nat>): Job
    requires |times| == 7
  {
    UnderReview(InitialWorkspace(drafts, visuals, InitialArtifacts(drafts, visuals, sources, tasks, times), tasks))
  }

  // ---------- what is consistent about a job ----------

  ghost predicate UniqueSections(drafts: seq<Section>) {
    && (forall i, j :: 0 <= i < j < |drafts| ==> drafts[i].id != drafts[j].id)
    && (forall i :: 0 <= i < |drafts| ==> drafts[i].id != "")
  }

  /** An id starts with its type's first three letters, which tell all types apart, and has no
      whitespace at either end. */
  ghost predicate WellNamed(a: Artifact) {
    && |a.id| > 3 && a.id[..3] == TypeName(a.kind)[..3]
    && '0' <= a.id[|a.id| - 1] <= '9'
  }

  ghost predicate IdsGrow(artifacts: seq<Artifact>) {
    && (forall i :: 0 <= i < |artifacts| ==> WellNamed(artifacts[i]))
    && (forall i, j :: 0 <= i < j < |artifacts| && artifacts[i].kind == artifacts[j].kind
          ==> |artifacts[i].id| < |artifacts[j].id|)
  }

  ghost predicate LastOfKind(artifacts: seq<Artifact>, a: Artifact) {
    exists i :: 0 <= i < |artifacts| && artifacts[i] == a
                && forall j :: i < j < |artifacts| ==> artifacts[j].kind != a.kind
  }

  /** The drafting map holds exactly the drafts, by their section ids. */
  ghost predicate SectionsMatch(drafts: seq<Section>, sections: map<string, Section>) {
    && (forall i :: 0 <= i < |drafts| ==> drafts[i].id in sections && sections[drafts[i].id] == drafts[i])
    && (forall id :: id in sections ==> exists i :: 0 <= i < |drafts| && drafts[i].id == id)
  }

  ghost predicate SectionsAgree(w: Workspace) { UniqueSections(w.drafts) && SectionsMatch(w.drafts, w.sections) }

  ghost predicate LatestAgree(w: Workspace) {
    && w.latestManuscript.kind == Manuscript && LastOfKind(w.artifacts, w.latestManuscript)
    && w.latestManuscript.content == Drafts(w.drafts)
    && w.latestVisual.kind == VisualBundle && LastOfKind(w.artifacts, w.latestVisual)
    && w.latestVisual.content == Visuals(w.visuals)
  }

  ghost predicate PendingNamesArtifacts(w: Workspace) {
    forall k :: 0 <= k < |w.pendingReviewTarget.artifactIds| ==>
      w.pendingReviewTarget.artifactIds[k] in Ids(w.artifacts)
  }

  ghost predicate Consistent(job: Job) {
    var w := job.workspace;
    && job.artifacts == w.artifacts && IdsGrow(w.artifacts)
    && job.artifactIds == Ids(w.artifacts)
    && LatestAgree(w) && SectionsAgree(w)
    && job.pendingCheckpoint == w.pendingReviewTarget && PendingNamesArtifacts(w)
    && (w.queue.Some? ==> w.queue.value == w.tasks)
  }

  // ---------- ids stay distinct ----------

  lemma TypesDiffer(a: Kind, b: Kind)
    ensures TypeName(a)[..3] == TypeName(b)[..3] ==> a == b
  {
    var heads := ["dos", "man", "vis", "cri", "rev", "sou", "ret"];
    assert TypeName(Dossier)[..3] == heads[0] && TypeName(Manuscript)[..3] == heads[1]
        && TypeName(VisualBundle)[..3] == heads[2] && TypeName(Critique)[..3] == heads[3]
        && TypeName(Revision)[..3] == heads[4] && TypeName(SourceBundle)[..3] == heads[5]
        && TypeName(Trajectory)[..3] == heads[6];
  }

  /** So the job's id list, which de-duplicates, loses nothing. */
  lemma IdsAreDistinct(artifacts: seq<Artifact>)
    requires IdsGrow(artifacts)
    ensures NoDuplicates(Ids(artifacts)) && Unique(Ids(artifacts)) == Ids(artifacts)
  {
    var ids := Ids(artifacts);
    forall i, j | 0 <= i < j < |ids| ensures ids[i] != ids[j] {
      TypesDiffer(artifacts[i].kind, artifacts[j].kind);
    }
    forall i | 0 <= i < |ids| ensures Trim(ids[i]) == ids[i] != "" {
      assert WellNamed(artifacts[i]);
      NamesAreTrimmed(artifacts[i]);
    }
    assert TrimEach(ids) == ids;
    DedupFixed(ids);
  }

  lemma NamesAreTrimmed(a: Artifact)
    requires WellNamed(a)
    ensures Trim(a.id) == a.id
  {
    assert a.id[0] == a.id[..3][0] == TypeName(a.kind)[0];
    assert !GoSpace(a.id[0]) && !GoSpace(a.id[|a.id| - 1]);
  }

  lemma LastIsLongest(artifacts: seq<Artifact>, a: Artifact)
    requires IdsGrow(artifacts) && LastOfKind(artifacts, a)
    ensures WellNamed(a)
    ensures forall j :: 0 <= j < |artifacts| && artifacts[j].kind == a.kind ==> |artifacts[j].id| <= |a.id|
  {
  }

  /** Appending a new version of the latest artifact of a kind. */
  lemma AppendVersion(artifacts: seq<Artifact>, latest: Artifact, version: int, content: Content)
    requires IdsGrow(artifacts) && LastOfKind(artifacts, latest)
    ensures var next := Artifact(Versioned(latest.id, version), latest.kind, content);
            && IdsGrow(artifacts + [next]) && LastOfKind(artifacts + [next], next)
            && (forall a :: LastOfKind(artifacts, a) && a.kind != latest.kind ==> LastOfKind(artifacts + [next], a))
  {
    var next := Artifact(Versioned(latest.id, version), latest.kind, content);
    var more := artifacts + [next];
    LastIsLongest(artifacts, latest);
    assert WellNamed(next) by { assert next.id[..3] == latest.id[..3]; }
    StillGrow(artifacts, next);
    assert more[|artifacts|] == next;
    forall a | LastOfKind(artifacts, a) && a.kind != latest.kind
      ensures LastOfKind(more, a)
    {
      StaysLast(artifacts, next, a);
    }
  }

  lemma StillGrow(artifacts: seq<Artifact>, next: Artifact)
    requires IdsGrow(artifacts) && WellNamed(next)
    requires forall j :: 0 <= j < |artifacts| && artifacts[j].kind == next.kind ==> |artifacts[j].id| < |next.id|
    ensures IdsGrow(artifacts + [next])
  {
  }

  lemma StaysLast(artifacts: seq<Artifact>, next: Artifact, a: Artifact)
    requires LastOfKind(artifacts, a) && a.kind != next.kind
    ensures LastOfKind(artifacts + [next], a)
  {
    var i :| 0 <= i < |artifacts| && artifacts[i] == a
             && forall j :: i < j < |artifacts| ==> artifacts[j].kind != a.kind;
    assert (artifacts + [next])[i] == a;
  }

  // ---------- every operation keeps the job consistent ----------

  ghost predicate ViewsAgree(w: Workspace) {
    IdsGrow(w.artifacts) && LatestAgree(w) && SectionsAgree(w) && PendingNamesArtifacts(w)
  }

  lemma SectionsStillMatch(drafts: seq<Section>, sections: map<string, Section>, i: nat, s: Section)
    requires i < |drafts| && s.id == drafts[i].id && UniqueSections(drafts) && SectionsMatch(drafts, sections)
    ensures UniqueSections(drafts[i := s]) && SectionsMatch(drafts[i := s], sections[s.id := s])
  {
    var drafts', sections' := drafts[i := s], sections[s.id := s];
    forall id | id in sections' ensures exists k :: 0 <= k < |drafts'| && drafts'[k].id == id {
      if id == s.id {
        assert drafts'[i].id == id;
      } else {
        var k :| 0 <= k < |drafts| && drafts[k].id == id;
        assert drafts'[k].id == id;
      }
    }
  }

  lemma KeepsPending(artifacts: seq<Artifact>, next: Artifact, ids: seq<string>)
    requires forall k :: 0 <= k < |ids| ==> ids[k] in Ids(artifacts)
    ensures forall k :: 0 <= k < |ids| ==> ids[k] in Ids(artifacts + [next])
    ensures next.id in Ids(artifacts + [next])
  {
    assert Ids(artifacts + [next]) == Ids(artifacts) + [next.id];
  }

  lemma WithDraftConsistent(w: Workspace, i: nat, s: Section)
    requires i < |w.drafts| && s.id == w.drafts[i].id && ViewsAgree(w)
    ensures ViewsAgree(WithDraft(w, i, s))
    ensures WithDraft(w, i, s).latestManuscript.id in Ids(WithDraft(w, i, s).artifacts)
  {
    var next := NextSnapshot(w, w.drafts[i := s]);
    AppendVersion(w.artifacts, w.latestManuscript, HistoryVersion(w.artifacts, Manuscript) + 1, next.content);
    KeepsPending(w.artifacts, next, w.pendingReviewTarget.artifactIds);
    SectionsStillMatch(w.drafts, w.sections, i, s);
  }

  lemma WithVisualConsistent(w: Workspace, i: nat, v: Visual)
    requires i < |w.visuals| && ViewsAgree(w)
    ensures ViewsAgree(WithVisual(w, i, v))
    ensures WithVisual(w, i, v).latestVisual.id in Ids(WithVisual(w, i, v).artifacts)
  {
    var next := NextBundle(w, w.visuals[i := v]);
    AppendVersion(w.artifacts, w.latestVisual, HistoryVersion(w.artifacts, VisualBundle) + 1, next.content);
    KeepsPending(w.artifacts, next, w.pendingReviewTarget.artifactIds);
  }

  // ---------- runs ----------

  datatype Op =
    | Rewrite(id: string, revised: string, note: string)
    | Edit(id: string, stripped: string, userId: string)
    | RegenerateVisual(id: string, note: string, spec: string, packets: seq<string>)

  function OpFailure(job: Job, op: Op): Option<Failure> {
    match op
    case Rewrite(id, _, _) => RewriteFailure(job, id)
    case Edit(id, stripped, _) => EditFailure(job, id, stripped)
    case RegenerateVisual(id, _, _, _) => VisualFailure(job, id)
  }

  function Apply(job: Job, op: Op): Job {
    match op
    case Rewrite(id, revised, note) => AfterRewrite(job, id, revised, note)
    case Edit(id, stripped, userId) => AfterEdit(job, id, stripped, userId)
    case RegenerateVisual(id, note, spec, packets) => AfterVisual(job, id, note, spec, packets)
  }

  ghost function Run(job: Job, ops: seq<Op>): Job {
    if ops == [] then job else Apply(Run(job, ops[..|ops| - 1]), ops[|ops| - 1])
  }

  lemma ReviewConsistent(w: Workspace, target: Target, targetId: string, pending: Checkpoint, action: Action)
    requires ViewsAgree(w) && forall k :: 0 <= k < |pending.artifactIds| ==> pending.artifactIds[k] in Ids(w.artifacts)
    ensures Consistent(UnderReview(Audited(ReviewDrafts(w, target, targetId, pending), action, AnyUser, PeerReviewer)))
  {
    IdsAreDistinct(w.artifacts);
  }

  lemma RewriteConsistent(job: Job, id: string, revised: string, note: string)
    requires Consistent(job)
    ensures Consistent(AfterRewrite(job, id, revised, note))
  {
    if RewriteFailure(job, id).None? {
      var i := DraftIndex(job.workspace.drafts, id);
      var s := RewrittenDraft(job.workspace.drafts[i], revised, note);
      WithDraftConsistent(job.workspace, i, s);
      var w := WithDraft(job.workspace, i, s);
      ReviewConsistent(w, SectionTarget, id, Checkpoint(RevisedManuscript, ManuscriptSurface, [w.latestManuscript.id]),
                       SectionRewritten);
    }
  }

  lemma EditConsistent(job: Job, id: string, stripped: string, userId: string)
    requires Consistent(job)
    ensures Consistent(AfterEdit(job, id, stripped, userId))
  {
    if EditFailure(job, id, stripped).None? {
      var i := DraftIndex(job.workspace.drafts, id);
      var s := EditedDraft(job.workspace.drafts[i], Trim(stripped), userId);
      WithDraftConsistent(job.workspace, i, s);
      IdsAreDistinct(WithDraft(job.workspace, i, s).artifacts);
    }
  }

  lemma VisualConsistent(job: Job, id: string, note: string, spec: string, packets: seq<string>)
    requires Consistent(job)
    ensures Consistent(AfterVisual(job, id, note, spec, packets))
  {
    if VisualFailure(job, id).None? {
      var i := VisualIndex(job.workspace.visuals, id);
      var v := RegeneratedVisual(job.workspace.visuals[i], note, spec, packets);
      WithVisualConsistent(job.workspace, i, v);
      var w := WithVisual(job.workspace, i, v);
      ReviewConsistent(w, VisualTarget, id, Checkpoint(RegeneratedVisuals, VisualSurface, [w.latestVisual.id]),
                       VisualRegenerated);
    }
  }

  lemma ApplyConsistent(job: Job, op: Op)
    requires Consistent(job)
    ensures Consistent(Apply(job, op))
  {
    match op
    case Rewrite(id, revised, note) => RewriteConsistent(job, id, revised, note);
    case Edit(id, stripped, userId) => EditConsistent(job, id, stripped, userId);
    case RegenerateVisual(id, note, spec, packets) => VisualConsistent(job, id, note, spec, packets);
  }

  lemma {:induction false} RunConsistent(job: Job, ops: seq<Op>)
    requires Consistent(job)
    ensures Consistent(Run(job, ops))
  {
    if ops != [] {
      RunConsistent(job, ops[..|ops| - 1]);
      ApplyConsistent(Run(job, ops[..|ops| - 1]), ops[|ops| - 1]);
    }
  }

  lemma {:induction false} DraftMapAgrees(drafts: seq<Section>)
    requires UniqueSections(drafts)
    ensures forall i :: 0 <= i < |drafts| ==>
              drafts[i].id in DraftMap(drafts) && DraftMap(drafts)[drafts[i].id] == drafts[i]
    ensures forall id :: id in DraftMap(drafts) ==> exists i :: 0 <= i < |drafts| && drafts[i].id == id
  {
    if drafts != [] {
      var front := drafts[..|drafts| - 1];
      DraftMapAgrees(front);
      forall i | 0 <= i < |front|
        ensures drafts[i].id in DraftMap(drafts) && DraftMap(drafts)[drafts[i].id] == drafts[i]
      {
        assert front[i].id in DraftMap(front);
      }
      forall id | id in DraftMap(drafts) ensures exists i :: 0 <= i < |drafts| && drafts[i].id == id {
        if id in DraftMap(front) {
          var i :| 0 <= i < |front| && front[i].id == id;
          assert drafts[i].id == id;
        }
      }
    }
  }

  lemma KindsAreDistinct(a: seq<Artifact>)
    requires |a| == 7 && forall i :: 0 <= i < 7 ==> a[i].kind == KindAt(i)
    ensures forall i, j :: 0 <= i < j < 7 ==> a[i].kind != a[j].kind
    ensures forall i :: 0 <= i < 7 ==> LastOfKind(a, a[i])
  {
    forall i, j | 0 <= i < j < 7 ensures a[i].kind != a[j].kind {}
    forall i | 0 <= i < 7 ensures LastOfKind(a, a[i]) { assert a[i] == a[i]; }
  }

  lemma FreshIdsGrow(a: seq<Artifact>, times: seq<nat>)
    requires |times| == |a| == 7 && forall i :: 0 <= i < 7 ==> a[i] == Fresh(KindAt(i), times[i], a[i].content)
    ensures IdsGrow(a)
    ensures forall i :: 0 <= i < 7 ==> LastOfKind(a, a[i])
  {
    forall i | 0 <= i < 7 ensures WellNamed(a[i]) {}
    forall i | 0 <= i < 7 ensures a[i].kind == KindAt(i) {}
    KindsAreDistinct(a);
  }

  /** The artifacts of a fresh job, and the three its checkpoint names. */
  lemma InitialArtifactsAgree(drafts: seq<Section>, visuals: seq<Visual>, sources: seq<string>, tasks: seq<Task>,
                              times: seq<nat>)
    requires |times| == 7
    ensures var a := InitialArtifacts(drafts, visuals, sources, tasks, times);
            && IdsGrow(a) && Unique(Ids(a)) == Ids(a) && LastOfKind(a, a[1]) && LastOfKind(a, a[2])
            && a[1].id in Ids(a) && a[2].id in Ids(a) && a[3].id in Ids(a)
  {
    var a := InitialArtifacts(drafts, visuals, sources, tasks, times);
    var ids := Ids(a);
    FreshIdsGrow(a, times);
    IdsAreDistinct(a);
    assert ids[1] in ids && ids[2] in ids && ids[3] in ids;
  }

  lemma InitialViewsAgree(drafts: seq<Section>, visuals: seq<Visual>, a: seq<Artifact>, tasks: seq<Task>)
    requires UniqueSections(drafts) && |a| == 7 && IdsGrow(a) && LastOfKind(a, a[1]) && LastOfKind(a, a[2])
    requires a[1].kind == Manuscript && a[1].content == Drafts(drafts)
    requires a[2].kind == VisualBundle && a[2].content == Visuals(visuals)
    requires a[1].id in Ids(a) && a[2].id in Ids(a) && a[3].id in Ids(a)
    ensures ViewsAgree(InitialWorkspace(drafts, visuals, a, tasks))
  {
    DraftMapAgrees(drafts);
  }

  lemma ReviewedConsistent(w: Workspace)
    requires ViewsAgree(w) && w.queue == Some(w.tasks)
    ensures Consistent(UnderReview(w))
  {
    IdsAreDistinct(w.artifacts);
  }

  lemma InitialConsistent(drafts: seq<Section>, visuals: seq<Visual>, sources: seq<string>, tasks: seq<Task>,
                          times: seq<nat>)
    requires |times| == 7 && UniqueSections(drafts)
    ensures Consistent(InitialJob(drafts, visuals, sources, tasks, times))
  {
    var a := InitialArtifacts(drafts, visuals, sources, tasks, times);
    InitialArtifactsAgree(drafts, visuals, sources, tasks, times);
    InitialViewsAgree(drafts, visuals, a, tasks);
    ReviewedConsistent(InitialWorkspace(drafts, visuals, a, tasks));
  }

  /** Whatever is done to a fresh job, the views its operations maintain agree. */
  lemma ReachableConsistent(drafts: seq<Section>, visuals: seq<Visual>, sources: seq<string>, tasks: seq<Task>,
                            times: seq<nat>, ops: seq<Op>)
    requires |times| == 7 && UniqueSections(drafts)
    ensures Consistent(Run(InitialJob(drafts, visuals, sources, tasks, times), ops))
  {
    InitialConsistent(drafts, visuals, sources, tasks, times);
    RunConsistent(InitialJob(drafts, visuals, sources, tasks, times), ops);
  }

  // ---------- what runs conserve ----------

  ghost function DraftVersions(drafts: seq<Section>): int {
    if drafts == [] then 0 else DraftVersions(drafts[..|drafts| - 1]) + drafts[|drafts| - 1].version
  }

  ghost function VisualVersions(visuals: seq<Visual>): int {
    if visuals == [] then 0 else VisualVersions(visuals[..|visuals| - 1]) + visuals[|visuals| - 1].version
  }

  lemma {:induction false} DraftBump(drafts: seq<Section>, i: nat, s: Section)
    requires i < |drafts|
    ensures DraftVersions(drafts[i := s]) == DraftVersions(drafts) + s.version - drafts[i].version
  {
    var front := drafts[..|drafts| - 1];
    if i < |front| {
      DraftBump(front, i, s);
      assert drafts[i := s][..|front|] == front[i := s];
    } else {
      assert drafts[i := s][..|front|] == front;
    }
  }

  lemma {:induction false} VisualBump(visuals: seq<Visual>, i: nat, v: Visual)
    requires i < |visuals|
    ensures VisualVersions(visuals[i := v]) == VisualVersions(visuals) + v.version - visuals[i].version
  {
    var front := visuals[..|visuals| - 1];
    if i < |front| {
      VisualBump(front, i, v);
      assert visuals[i := v][..|front|] == front[i := v];
    } else {
      assert visuals[i := v][..|front|] == front;
    }
  }

  /** Artifacts and audit entries are only ever appended, and as many artifacts of a kind appear
      as versions are gained. */
  ghost predicate Grows(v: Workspace, w: Workspace) {
    && v.artifacts <= w.artifacts && v.audit <= w.audit
    && |w.artifacts| - |v.artifacts| == |w.audit| - |v.audit|
    && HistoryVersion(w.artifacts, Manuscript) - HistoryVersion(v.artifacts, Manuscript)
       == DraftVersions(w.drafts) - DraftVersions(v.drafts)
    && HistoryVersion(w.artifacts, VisualBundle) - HistoryVersion(v.artifacts, VisualBundle)
       == VisualVersions(w.visuals) - VisualVersions(v.visuals)
  }

  lemma DraftGrows(v: Workspace, w: Workspace, i: nat, s: Section, a: Artifact)
    requires i < |v.drafts| && s.version == v.drafts[i].version + 1 && a.kind == Manuscript
    requires w.drafts == v.drafts[i := s] && w.visuals == v.visuals && w.artifacts == v.artifacts + [a]
    requires v.audit <= w.audit && |w.audit| == |v.audit| + 1
    ensures Grows(v, w)
  {
    DraftBump(v.drafts, i, s);
  }

  lemma VisualGrows(v: Workspace, w: Workspace, i: nat, x: Visual, a: Artifact)
    requires i < |v.visuals| && x.version == v.visuals[i].version + 1 && a.kind == VisualBundle
    requires w.visuals == v.visuals[i := x] && w.drafts == v.drafts && w.artifacts == v.artifacts + [a]
    requires v.audit <= w.audit && |w.audit| == |v.audit| + 1
    ensures Grows(v, w)
  {
    VisualBump(v.visuals, i, x);
  }

  /** A successful operation adds one artifact and one audit entry; a failed one changes nothing. */
  lemma ApplyGrows(job: Job, op: Op)
    ensures Grows(job.workspace, Apply(job, op).workspace)
    ensures |Apply(job, op).workspace.audit| == |job.workspace.audit| + if OpFailure(job, op).None? then 1 else 0
    ensures OpFailure(job, op).Some? ==> Apply(job, op) == job
  {
    if OpFailure(job, op).Some? { return; }
    var v, w := job.workspace, Apply(job, op).workspace;
    match op
    case Rewrite(id, revised, note) =>
      var i := DraftIndex(v.drafts, id);
      DraftGrows(v, w, i, RewrittenDraft(v.drafts[i], revised, note), w.latestManuscript);
    case Edit(id, stripped, userId) =>
      var i := DraftIndex(v.drafts, id);
      DraftGrows(v, w, i, EditedDraft(v.drafts[i], Trim(stripped), userId), w.latestManuscript);
    case RegenerateVisual(id, note, spec, packets) =>
      var i := VisualIndex(v.visuals, id);
      VisualGrows(v, w, i, RegeneratedVisual(v.visuals[i], note, spec, packets), w.latestVisual);
  }

  /** Conservation over a whole run: one manuscript snapshot per section version gained, one
      visual bundle per visual version gained, one audit entry per artifact, and no artifact or
      audit entry is lost or changed. */
  lemma {:induction false} RunGrows(job: Job, ops: seq<Op>)
    ensures Grows(job.workspace, Run(job, ops).workspace)
  {
    if ops != [] {
      var front := ops[..|ops| - 1];
      RunGrows(job, front);
      ApplyGrows(Run(job, front), ops[|ops| - 1]);
      GrowsTrans(job.workspace, Run(job, front).workspace, Run(job, ops).workspace);
    }
  }

  lemma GrowsTrans(u: Workspace, v: Workspace, w: Workspace)
    requires Grows(u, v) && Grows(v, w)
    ensures Grows(u, w)
  {
  }

  // ---------- the views no operation refreshes ----------

  /** No rewrite and no edit has succeeded. */
  ghost predicate DraftsUntouched(audit: seq<AuditEntry>) {
    forall k :: 0 <= k < |audit| ==> audit[k].action != SectionRewritten && audit[k].action != SectionEdited
  }

  /** The bundle is the latest manuscript as long as no rewrite or edit has succeeded, and then an
      older one, with a shorter id. */
  ghost predicate BundleFollows(w: Workspace) {
    if DraftsUntouched(w.audit) then w.manuscriptBundle == w.latestManuscript
    else |w.manuscriptBundle.id| < |w.latestManuscript.id|
  }

  lemma OneMoreEntry(audit: seq<AuditEntry>, e: AuditEntry)
    ensures DraftsUntouched(audit + [e]) <==>
              DraftsUntouched(audit) && e.action != SectionRewritten && e.action != SectionEdited
  {
    assert (audit + [e])[|audit|] == e;
    if DraftsUntouched(audit + [e]) {
      forall k | 0 <= k < |audit| ensures audit[k].action != SectionRewritten && audit[k].action != SectionEdited {
        assert (audit + [e])[k] == audit[k];
      }
    }
  }

  lemma BundleLags(v: Workspace, w: Workspace, version: int, e: AuditEntry)
    requires BundleFollows(v) && w.manuscriptBundle == v.manuscriptBundle && w.audit == v.audit + [e]
    requires e.action == SectionRewritten || e.action == SectionEdited
    requires w.latestManuscript.id == Versioned(v.latestManuscript.id, version)
    ensures BundleFollows(w)
  {
    OneMoreEntry(v.audit, e);
  }

  lemma ApplyBundle(job: Job, op: Op)
    requires BundleFollows(job.workspace)
    ensures BundleFollows(Apply(job, op).workspace)
  {
    if OpFailure(job, op).Some? { return; }
    var v, w := job.workspace, Apply(job, op).workspace;
    var version := HistoryVersion(v.artifacts, Manuscript) + 1;
    match op
    case Rewrite(_, _, _) => BundleLags(v, w, version, AuditEntry(SectionRewritten, AnyUser, PeerReviewer));
    case Edit(_, _, userId) =>
      BundleLags(v, w, version, AuditEntry(SectionEdited, if userId != "" then User(userId) else AnyUser, job.stage));
    case RegenerateVisual(_, _, _, _) => OneMoreEntry(v.audit, AuditEntry(VisualRegenerated, AnyUser, PeerReviewer));
  }

  lemma {:induction false} RunBundle(job: Job, ops: seq<Op>)
    requires BundleFollows(job.workspace)
    ensures BundleFollows(Run(job, ops).workspace)
  {
    if ops != [] {
      RunBundle(job, ops[..|ops| - 1]);
      ApplyBundle(Run(job, ops[..|ops| - 1]), ops[|ops| - 1]);
    }
  }

  lemma InitialStaleViews(drafts: seq<Section>, visuals: seq<Visual>, a: seq<Artifact>, tasks: seq<Task>)
    requires |a| == 7
    ensures BundleFollows(InitialWorkspace(drafts, visuals, a, tasks))
  {
  }

  lemma FollowsExactly(w: Workspace)
    requires BundleFollows(w)
    ensures w.manuscriptBundle == w.latestManuscript <==> DraftsUntouched(w.audit)
  {
  }

  lemma ArtifactStays(job: Job, ops: seq<Op>, i: nat)
    requires i < |job.workspace.artifacts|
    ensures var after := Run(job, ops).workspace.artifacts; i < |after| && after[i] == job.workspace.artifacts[i]
  {
    RunGrows(job, ops);
  }

  /** Two views are set once: whatever is done to a fresh job, its manuscript bundle is the latest
      manuscript if and only if no rewrite or edit has succeeded, and the revision entry among its
      artifacts lists the tasks as they were at the start. */
  lemma StaleViewsExactly(drafts: seq<Section>, visuals: seq<Visual>, sources: seq<string>, tasks: seq<Task>,
                          times: seq<nat>, ops: seq<Op>)
    requires |times| == 7
    ensures var w := Run(InitialJob(drafts, visuals, sources, tasks, times), ops).workspace;
            && (w.manuscriptBundle == w.latestManuscript <==> DraftsUntouched(w.audit))
            && |w.artifacts| > 4 && w.artifacts[4] == Fresh(Revision, times[4], TaskList(tasks))
  {
    var job := InitialJob(drafts, visuals, sources, tasks, times);
    InitialStaleViews(drafts, visuals, InitialArtifacts(drafts, visuals, sources, tasks, times), tasks);
    RunBundle(job, ops);
    FollowsExactly(Run(job, ops).workspace);
    ArtifactStays(job, ops, 4);
  }

  /** The frame of an operation: every draft it does not name is left exactly as it was. */
  lemma OthersUntouched(job: Job, op: Op, j: nat)
    requires j < |job.workspace.drafts|
    requires op.RegenerateVisual? || op.id != job.workspace.drafts[j].id
    ensures |Apply(job, op).workspace.drafts| == |job.workspace.drafts|
    ensures Apply(job, op).workspace.drafts[j] == job.workspace.drafts[j]
  {
  }

  /** An artifact that was just appended is not among the ids that existed before. */
  lemma NewIdIsNew(artifacts: seq<Artifact>, next: Artifact, ids: seq<string>)
    requires IdsGrow(artifacts + [next]) && forall k :: 0 <= k < |ids| ==> ids[k] in Ids(artifacts)
    ensures next.id !in ids
  {
    IdsAreDistinct(artifacts + [next]);
    var all := Ids(artifacts + [next]);
    assert all == Ids(artifacts) + [next.id] && all[|artifacts|] == next.id;
    forall k | 0 <= k < |ids| ensures ids[k] != next.id {
      var j :| 0 <= j < |artifacts| && Ids(artifacts)[j] == ids[k];
      assert all[j] == ids[k];
    }
  }

  lemma KindsDiffer(a: Artifact, b: Artifact)
    requires WellNamed(a) && WellNamed(b) && a.kind != b.kind
    ensures a.id != b.id
  {
    TypesDiffer(a.kind, b.kind);
  }

  /** Exactly when the checkpoint points at the current manuscript after a successful operation:
      a rewrite moves it there; an edit leaves it naming an older snapshot, a visual refresh moves
      it to the bundle. */
  lemma CheckpointNamesLatest(job: Job, op: Op)
    requires Consistent(job) && OpFailure(job, op).None?
    ensures var after := Apply(job, op);
            after.workspace.latestManuscript.id in after.pendingCheckpoint.artifactIds <==> op.Rewrite?
  {
    var after := Apply(job, op);
    var w := after.workspace;
    ApplyConsistent(job, op);
    match op
    case Rewrite(_, _, _) =>
    case RegenerateVisual(_, _, _, _) =>
      LastIsLongest(w.artifacts, w.latestManuscript);
      LastIsLongest(w.artifacts, w.latestVisual);
      KindsDiffer(w.latestManuscript, w.latestVisual);
    case Edit(_, _, _) =>
      NewIdIsNew(job.workspace.artifacts, w.latestManuscript, job.workspace.pendingReviewTarget.artifactIds);
  }

  /** The list of section artifact ids forgets none of its (trimmed, non-blank) entries and gains
      the id of the draft just replaced. */
  lemma SectionArtifactIdsGrow(w: Workspace, i: nat, s: Section, id: string)
    requires i < |w.drafts|
    ensures Trim(id) != "" && (id in w.sectionArtifactIds || id == s.artifactId)
            ==> Trim(id) in WithDraft(w, i, s).sectionArtifactIds
  {
    var ids := w.sectionArtifactIds + [s.artifactId];
    UniqueIsClean(ids);
    if id in ids {
      var k :| 0 <= k < |ids| && ids[k] == id;
      assert TrimEach(ids)[k] in TrimEach(ids);
    }
  }

  // ---------- the mutable job ----------

  class PaperJob {
    var workspace: Workspace
    var artifacts: seq<Artifact>
    var artifactIds: seq<string>
    var pendingCheckpoint: Checkpoint
    var status: Status
    var stage: Stage

    ghost function State(): Job reads this {
      Job(workspace, artifacts, artifactIds, pendingCheckpoint, status, stage)
    }

    constructor (job: Job)
      ensures State() == job
    {
      workspace, artifacts, artifactIds := job.workspace, job.artifacts, job.artifactIds;
      pendingCheckpoint, status, stage := job.pendingCheckpoint, job.status, job.stage;
    }

    static method CountKind(artifacts: seq<Artifact>, kind: Kind) returns (count: nat)
      ensures count == HistoryVersion(artifacts, kind)
    {
      count := 0;
      for i := 0 to |artifacts|
        invariant count == HistoryVersion(artifacts[..i], kind)
      {
        assert artifacts[..i + 1] == artifacts[..i] + [artifacts[i]];
        if artifacts[i].kind == kind { count := count + 1; }
      }
      assert artifacts[..|artifacts|] == artifacts;
    }

    static method ArtifactIds(artifacts: seq<Artifact>) returns (ids: seq<string>)
      ensures ids == Unique(Ids(artifacts))
    {
      var all := [];
      for i := 0 to |artifacts|
        invariant all == Ids(artifacts)[..i]
      {
        all := all + [artifacts[i].id];
      }
      assert Ids(artifacts)[..|artifacts|] == Ids(artifacts);
      ids := UniqueStrings(all);
    }

    static method FindDraft(drafts: seq<Section>, id: string) returns (i: nat)
      ensures i == DraftIndex(drafts, id)
    {
      i := 0;
      while i < |drafts| && drafts[i].id != id
        invariant i <= |drafts| && forall j :: 0 <= j < i ==> drafts[j].id != id
      {
        i := i + 1;
      }
    }

    static method FindVisual(visuals: seq<Visual>, id: string) returns (i: nat)
      ensures i == VisualIndex(visuals, id)
    {
      i := 0;
      while i < |visuals| && visuals[i].artifactId != id
        invariant i <= |visuals| && forall j :: 0 <= j < i ==> visuals[j].artifactId != id
      {
        i := i + 1;
      }
    }

    /** Replaces draft i in the draft list and the drafting map, and appends a manuscript snapshot. */
    static method ReplaceDraft(w: Workspace, i: nat, s: Section) returns (w': Workspace)
      requires i < |w.drafts|
      ensures w' == WithDraft(w, i, s)
    {
      var drafts := w.drafts[i := s];
      var ids := UniqueStrings(w.sectionArtifactIds + [s.artifactId]);
      var count := CountKind(w.artifacts, Manuscript);
      var manuscript := Artifact(Versioned(w.latestManuscript.id, count + 1), Manuscript, Drafts(drafts));
      w' := w.(drafts := drafts, sections := w.sections[s.id := s], sectionArtifactIds := ids,
               artifacts := w.artifacts + [manuscript], latestManuscript := manuscript);
    }

    /** Replaces visual i, and appends a bundle of all visuals. */
    static method ReplaceVisual(w: Workspace, i: nat, v: Visual) returns (w': Workspace)
      requires i < |w.visuals|
      ensures w' == WithVisual(w, i, v)
    {
      var visuals := w.visuals[i := v];
      var count := CountKind(w.artifacts, VisualBundle);
      var bundle := Artifact(Versioned(w.latestVisual.id, count + 1), VisualBundle, Visuals(visuals));
      w' := w.(visuals := visuals, artifacts := w.artifacts + [bundle], latestVisual := bundle);
    }

    static method UpdateRevisionTasks(w: Workspace, target: Target, targetId: string) returns (w': Workspace)
      ensures w' == var tasks := CompleteTasks(w.tasks, target, targetId);
                    w.(tasks := tasks, queue := if w.queue.Some? then Some(tasks) else None)
    {
      var tasks := w.tasks;
      ghost var done := CompleteTasks(w.tasks, target, targetId);
      for i := 0 to |tasks|
        invariant |tasks| == |w.tasks|
        invariant forall j :: 0 <= j < |tasks| ==> tasks[j] == if j < i then done[j] else w.tasks[j]
      {
        if tasks[i].target == target && tasks[i].targetId == targetId {
          tasks := tasks[i := tasks[i].(completed := true)];
        }
      }
      assert tasks == done;
      w' := w.(tasks := tasks);
      if w.queue.Some? { w' := w'.(queue := Some(tasks)); }
    }

    method RewriteSection(id: string, revised: string, note: string) returns (r: Result<Section, Failure>)
      modifies this
      ensures State() == AfterRewrite(old(State()), id, revised, note)
      ensures RewriteFailure(old(State()), id).Some? ==> r == Err(RewriteFailure(old(State()), id).value)
      ensures RewriteFailure(old(State()), id).None? ==>
                r == Ok(State().workspace.drafts[DraftIndex(old(workspace).drafts, id)])
    {
      if id == "" { return Err(MissingId); }
      if workspace.drafts == [] { return Err(NothingThere); }
      var i := FindDraft(workspace.drafts, id);
      if i == |workspace.drafts| { return Err(NotFound); }
      var draft := RewrittenDraft(workspace.drafts[i], revised, note);
      var w := ReplaceDraft(workspace, i, draft);
      w := UpdateRevisionTasks(w, SectionTarget, id);
      var pending := Checkpoint(RevisedManuscript, ManuscriptSurface, [w.latestManuscript.id]);
      w := w.(pendingReviewTarget := pending, status := AwaitingApproval);
      Publish(w, pending, SectionRewritten);
      r := Ok(draft);
    }

    method WriteBack(w: Workspace)
      modifies this
      ensures State() ==
                old(State()).(workspace := w, artifacts := w.artifacts, artifactIds := Unique(Ids(w.artifacts)))
    {
      workspace, artifacts := w, w.artifacts;
      artifactIds := ArtifactIds(w.artifacts);
    }

    /** The end of an operation that asks for review: every view of the job is written back. */
    method Publish(w: Workspace, pending: Checkpoint, action: Action)
      requires w.pendingReviewTarget == pending
      modifies this
      ensures State() == UnderReview(Audited(w, action, AnyUser, PeerReviewer))
    {
      WriteBack(w);
      pendingCheckpoint, status, stage := pending, AwaitingApproval, PeerReviewer;
      AppendAudit(action, AnyUser);
    }

    method AppendAudit(action: Action, actor: Actor)
      modifies this`workspace
      ensures workspace == Audited(old(workspace), action, actor, stage)
    {
      workspace := workspace.(audit := workspace.audit + [AuditEntry(action, actor, stage)]);
    }

    method EditSection(id: string, stripped: string, userId: string) returns (r: Result<Section, Failure>)
      modifies this
      ensures State() == AfterEdit(old(State()), id, stripped, userId)
      ensures EditFailure(old(State()), id, stripped).Some? ==> r == Err(EditFailure(old(State()), id, stripped).value)
      ensures EditFailure(old(State()), id, stripped).None? ==>
                r == Ok(State().workspace.drafts[DraftIndex(old(workspace).drafts, id)])
    {
      if id == "" { return Err(MissingId); }
      var content := Trim(stripped);
      if content == "" { return Err(MissingContent); }
      if workspace.drafts == [] { return Err(NothingThere); }
      var i := FindDraft(workspace.drafts, id);
      if i == |workspace.drafts| { return Err(NotFound); }
      var draft := EditedDraft(workspace.drafts[i], content, userId);
      var w := ReplaceDraft(workspace, i, draft);
      WriteBack(w);
      AppendAudit(SectionEdited, if userId != "" then User(userId) else AnyUser);
      r := Ok(draft);
    }

    method RegenerateVisual(id: string, note: string, spec: string, packets: seq<string>)
      returns (r: Result<Visual, Failure>)
      modifies this
      ensures State() == AfterVisual(old(State()), id, note, spec, packets)
      ensures VisualFailure(old(State()), id).Some? ==> r == Err(VisualFailure(old(State()), id).value)
      ensures VisualFailure(old(State()), id).None? ==>
                r == Ok(State().workspace.visuals[VisualIndex(old(workspace).visuals, id)])
    {
      if id == "" { return Err(MissingId); }
      if workspace.visuals == [] { return Err(NothingThere); }
      var i := FindVisual(workspace.visuals, id);
      if i == |workspace.visuals| { return Err(NotFound); }
      var visual := RegeneratedVisual(workspace.visuals[i], note, spec, packets);
      var w := ReplaceVisual(workspace, i, visual);
      w := UpdateRevisionTasks(w, VisualTarget, id);
      var pending := Checkpoint(RegeneratedVisuals, VisualSurface, [w.latestVisual.id]);
      w := w.(pendingReviewTarget := pending, status := AwaitingApproval);
      Publish(w, pending, VisualRegenerated);
      r := Ok(visual);
    }
  }
}
