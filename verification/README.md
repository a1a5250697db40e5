# WisDev: a Dafny model of the retry, document, chunking and retrieval core

WisDev is a research assistant: a Go orchestrator that writes and revises full papers, and a Python
sidecar that generates text, embeds, chunks, indexes and caches. This project models the parts of both
that carry state or a bounded resource, and proves what each of them keeps over every input, every run
or every interleaving. Language models, numeric libraries, Redis, the network and clocks are arguments:
functions, optional maps, durations and readings about which nothing is assumed unless a lemma says so.

One file is one component.

- `RetryEngine`: per-attempt timeouts and backoff against one deadline, and the empty-text degradation
  ladder, for the structured and the plain-text loop; `RetryTimes` tells its times from the budget alone.
- `FullPaperJob`, `CitationIntegrity`, `CitationReground`: the full-paper job with its redundant views,
  citation verification over it, and the bounded re-grounding loop; `FullPaperContents` tells what each
  operation writes.
- `EvidenceDossier`: claim packets sorted into findings and merged into conclusions.
- `EmbeddingRecovery`: batched embedding that bisects rejected batches; `EmbeddingForms` tells what a
  rejected text is retried as and gets.
- `Chunking`: sentence-aware chunking with offsets and overlap; `ChunkSpans` tells where its spans come from.
- `TreeCache`, `SemanticCache`: an LRU cache and a first-in-first-out cache with similarity lookup;
  `SemanticLookups` tells what the latter serves.
- `RaptorTree`: the clustered retrieval tree and its incremental updates.
- `LexicalSearch`, `Ranking`: the fallback BM25 scorer, the index and its top-k search; `LexicalLaws` says
  what a score means.
- `ResilienceProbe`: the double-checked health probe, as interleaved steps.
- `ResilientConfig`, `DiverseSelection`, `SchemaAnnotation`: the shrinking configuration loop, the
  greedy diversity filter, and the schema annotation.
- `Strings`, `Wrappers`: trimming, de-duplication, `Option` and `Result`.

Classes and methods with loops follow the imperative parts of the source. Each method's contract equates
its result or the new state with a function of the inputs or the old state, and the theorems are about
those functions.

## Where the code and its promises part

The member named states it, by a concrete input or an exact condition; the last one is visible in the functions.

- Retry budget: after a structured-output timeout the next attempt starts without the backoff check, so
  the "budget exhausted" exit is reachable on a retry (`StructuredTimeoutExhausts`). With exact sleeps it
  is taken exactly then (`ExhaustedExactly`), so never in the text loop. The deadline is passed exactly
  when a backoff that fitted is overslept past it (`DeadlineExactly`), which takes more than 2.5 seconds
  (`DeadlineKept`) and can happen (`OversleepingIsLate`).
- In the structured loop, a minimal thinking setting made for the first model stays when the model
  changes; the text loop makes a new one (`LadderShape`).
- Chunks are not bounded by the limit: the overlap is kept without looking at it, and the content adds a
  space between spans. `OversizedExactly`, `ChunkSize` and `ContentExceeds` say by how much and when;
  `ChunkSizeIsTight` and `ContentExceedsWitness` show that it happens. The second fallback of the splitter
  (lines 101-102) can never be taken.
- A manual edit leaves the review checkpoint naming an older manuscript snapshot (`CheckpointNamesLatest`).
  The workspace's manuscript bundle, and the revision entry among its artifacts, are set once and never
  refreshed (`StaleViewsExactly`).
- Re-grounding appends its audit entry to the workspace and then writes an older copy back over it, so the
  entry never reaches the job (`FinishReground`); the reported `rounds` is the limit, not the rounds run.
- The fingerprint that stops re-grounding joins ids with separators: it tells ungrounded citations apart when no
  id contains one (`FingerprintDecides`), and not in general (`FingerprintCanCollide`).
- The semantic cache says LRU but evicts in insertion order whatever is read. Re-setting a key of a full
  cache evicts the oldest key although no room is needed, and moves the key only when it was the oldest
  (`SetAgain`). A Redis record without a value evicts an entry before it fails, and can count one request
  as two hits (`SemanticCache.GetExact`). Entries in memory never expire, although a lifetime is stored.
- RAPTOR clusters partition the leaves only when every leaf has an embedding, because labels are zipped
  with all leaves (`ClustersPartitionLeaves`, `LeafCanBeLeftOut`); topics and the root are not refreshed by
  updates, with the exact conditions in `TopicPapersAfterRun` and `RootPapersAfterRun` and a stale topic and
  root in `TopicAndRootCanGoStale`; a tree built too small never gets clusters (`TreeAfterRun`).
- `search(top_k=0)` returns every matching document (`ZeroMeansAll`); for which `top_k` the number of
  results is bounded by it is `TopKIsABound`.
- A request can be served a flag that is out of date, whether it waits for another one's probe
  (`WaiterCanBeStale`) or is only overtaken by it (`ReaderCanBeStale`); `ServedFlagExactly` says when.
- The schema preparation says it strips `additionalProperties`; the code keeps and annotates it.

## Model

| member | source | states |
|---|---|---|
| `RetryEngine.NormalizeBudget` | sidecar/services/gemini_service.py:310-328 | the budget is between 4 and 90 seconds, and a request inside that range is kept |
| `RetryEngine.TimeoutsDivideBudget` | sidecar/services/gemini_service.py:331-339 | attempt timeouts shrink, never below 4 seconds, and divide the whole budget up to rounding once none is lifted to that floor |
| `RetryEngine.AttemptTimeout` | sidecar/services/gemini_service.py:347-363 | a retry gets no timeout exactly when less than 2.5 seconds remain; a timeout is at least 2.5 seconds and at most what remains plus the rounding slack |
| `RetryEngine.Round3` | sidecar/services/gemini_service.py:363 | rounding to thousandths errs by at most 0.0005 and never falls below 2.5 from above it |
| `RetryEngine.Backoff` | sidecar/services/gemini_service.py:183-184 | the backoff lies between 2^attempt and one and a half times that |
| `RetryEngine.SleepBackoff` | sidecar/services/gemini_service.py:366-373 | the next attempt is allowed exactly when the backoff leaves 2.5 seconds, and starts after it; a structured timeout skips it |
| `RetryEngine.Attempt` | sidecar/services/gemini_service.py:1924-1945 | one attempt: its timeout is what the budget allows at its start, and no attempt is made only on a retry too close to the deadline |
| `RetryEngine.Generate` | sidecar/services/gemini_service.py:1915-2079 | the retry loop: at most three calls; every timeout, start, ladder and pause is determined by what the attempts meet, and the exit and end time are the ones those calls imply |
| `RetryEngine.OneEnding` | sidecar/services/gemini_service.py:1923-2079 | the calls of a run determine its exit and end |
| `RetryEngine.DeadlineExactly` | sidecar/services/gemini_service.py:347-373 | when the first call starts with 2.5 seconds left and calls keep their timeouts, the run ends by the deadline plus rounding if and only if it did not end in a backoff that fitted and was overslept past it |
| `RetryEngine.DeadlineKept` | sidecar/services/gemini_service.py:347-373 | so it does whenever no sleep overshoots by more than 2.5 seconds |
| `RetryEngine.OversleepingIsLate` | sidecar/services/gemini_service.py:366-373 | a 4-second text budget whose one-second backoff lasts eleven ends seven seconds late |
| `RetryEngine.RetriesHaveRoom` | sidecar/services/gemini_service.py:358-363 | every call has at least 2.5 seconds, and a retry starts only with that much budget left |
| `RetryEngine.ExhaustedExactly` | sidecar/services/gemini_service.py:1927-1935 | with exact sleeps the exhausted exit is taken if and only if the last call was a structured timeout, not the last attempt, with less than 2.5 seconds left |
| `RetryEngine.StructuredTimeoutExhausts` | sidecar/services/gemini_service.py:1972-1988 | a 4-second structured budget whose first call times out is exhausted on the retry: the exit is reachable |
| `RetryEngine.FallbackCases` | sidecar/services/gemini_service.py:107-135 | the fallback model by cases: standard for a lite model, else heavy, never the model itself |
| `RetryEngine.LiteExactly` | sidecar/services/gemini_service.py:107-135 | a lite model is one whose name contains the word |
| `RetryEngine.FallbackEndsInTwoHops` | sidecar/services/gemini_service.py:107-135 | falling back from any model never revisits one and stops within two hops, the second to the heavy tier |
| `RetryEngine.LadderClimbs` | sidecar/services/gemini_service.py:2043-2076 | the thinking and model setting climbs at most one rung per retried call, and only after an empty text |
| `RetryEngine.LadderShape` | sidecar/services/gemini_service.py:2043-2076 | which model and thinking setting each call of a run can carry, in either loop |
| `RetryEngine.LadderExactly` | sidecar/services/gemini_service.py:2043-2076 | what a failed call changes, exactly: after an empty text the thinking is minimised, then the fallback model is taken if there is one; nothing after any other failure |
| `RetryEngine.TerminalIsLast` | sidecar/services/gemini_service.py:2012-2041 | a success, authentication failure or safety block ends the run at once |
| `RetryTimes.BudgetIs` | sidecar/services/gemini_service.py:310-328 | a requested budget becomes the nearest accepted one; without one the loops get 45 and 30 seconds |
| `RetryTimes.RoundIsNearest` | sidecar/services/gemini_service.py:363 | rounding takes the nearest thousandth |
| `RetryTimes.TiesGoToEven` | sidecar/services/gemini_service.py:363 | halves go to the even thousandth |
| `RetryTimes.CallsGetTheirShare` | sidecar/services/gemini_service.py:331-363 | every call of a run gets the smaller of what is left and its share of the budget (at least 4 seconds), lifted to 2.5 seconds, up to rounding |
| `RetryTimes.PausesAre` | sidecar/services/gemini_service.py:366-373 | between two calls pass one or two seconds, at most half of that again, and what was overslept; nothing after a structured timeout |
| `RetryTimes.ExitsExactly` | sidecar/services/gemini_service.py:1923-2079 | which exit a run takes, from its last call and the clock |
| `RetryTimes.HangingFirstCall` | sidecar/services/gemini_service.py:1972-1988 | a first structured call that hangs for its whole timeout leaves room for a second if and only if the budget is at least 6.5 seconds warm or 9.998 cold; otherwise the run is exhausted |
| `FullPaperJob.PaperJob.RewriteSection` | orchestrator/internal/api/full_paper_routes.go:861-958 | rewriting a section gives exactly the rewritten job, the draft, or the source error with nothing changed |
| `FullPaperJob.PaperJob.EditSection` | orchestrator/internal/api/full_paper_routes.go:1291-1365 | a manual edit gives exactly the edited job, the draft, or the source error with nothing changed |
| `FullPaperJob.PaperJob.RegenerateVisual` | orchestrator/internal/api/full_paper_routes.go:1022-1135 | refreshing a visual gives exactly the refreshed job, the visual, or the source error with nothing changed |
| `FullPaperJob.PaperJob.UpdateRevisionTasks` | orchestrator/internal/api/full_paper_routes.go:1398-1417 | exactly the tasks of the target are completed, in the task list and in the revision queue when there is one |
| `FullPaperJob.PaperJob.CountKind` | orchestrator/internal/api/full_paper_routes.go:1419-1427 | the history version is the number of artifacts of the type |
| `FullPaperJob.PaperJob.ArtifactIds` | orchestrator/internal/api/full_paper_routes.go:1675-1681 | the id list is the de-duplicated ids of the artifacts |
| `FullPaperJob.PaperJob.Publish` | orchestrator/internal/api/full_paper_routes.go:925-955 | the workspace is written back to every view of the job, with checkpoint, status and stage |
| `FullPaperJob.AppendVersion` | orchestrator/internal/api/full_paper_routes.go:905-925 | a versioned id is longer than every earlier id of its type, so ids keep growing |
| `FullPaperJob.IdsAreDistinct` | orchestrator/internal/api/full_paper_routes.go:1675-1681 | artifact ids are pairwise distinct, so the de-duplicated id list loses none |
| `FullPaperJob.ApplyConsistent` | orchestrator/internal/api/full_paper_routes.go:861-958 | every operation keeps the views it maintains in agreement: artifacts and ids of job and workspace, latest manuscript and visual, drafts and drafting map, checkpoint and review target, tasks and queue |
| `FullPaperJob.RunConsistent` | orchestrator/internal/api/full_paper_routes.go:861-1365 | every run of operations keeps those views in agreement |
| `FullPaperJob.StaleViewsExactly` | orchestrator/internal/api/full_paper_routes.go:546-620 | the two views set once: in every job reached from a fresh one the manuscript bundle is the latest manuscript if and only if no rewrite or edit has succeeded, and the revision entry among the artifacts lists the initial tasks |
| `FullPaperJob.ReachableConsistent` | orchestrator/internal/api/full_paper_job_persist.go:30-70 | every job reached from a fresh one has its artifacts, ids, latest references, drafting map, checkpoint and queue in agreement |
| `FullPaperJob.ApplyGrows` | orchestrator/internal/api/full_paper_routes.go:861-1365 | a successful operation adds one artifact and one audit entry, a failed one changes nothing |
| `FullPaperJob.RunGrows` | orchestrator/internal/api/full_paper_routes.go:861-1365 | over a run of rewrites, edits and visual refreshes artifacts and audit log only grow, with one snapshot per section version gained and one bundle per visual version gained |
| `FullPaperJob.OthersUntouched` | orchestrator/internal/api/full_paper_routes.go:869-905 | an operation leaves every draft it does not name exactly as it was |
| `FullPaperJob.CheckpointNamesLatest` | orchestrator/internal/api/full_paper_routes.go:925-955 | after a successful operation the checkpoint names the latest manuscript if and only if it was a rewrite |
| `FullPaperJob.SectionArtifactIdsGrow` | orchestrator/internal/api/full_paper_routes.go:896-905 | the list of section artifact ids forgets none and gains the new one |
| `FullPaperContents.ShowReads` | orchestrator/internal/api/full_paper_routes.go:883 | the version number in an id can be read back |
| `FullPaperContents.HistoryVersionIs` | orchestrator/internal/api/full_paper_routes.go:1419-1427 | the history version is the number of artifacts of the kind |
| `FullPaperContents.FreshArtifacts` | orchestrator/internal/api/full_paper_routes.go:486-602 | the seven artifacts of a fresh job, their ids made of type and clock, and their contents |
| `FullPaperContents.FreshJobIs` | orchestrator/internal/api/full_paper_job_persist.go:30-70 | a fresh job shows what it was given and waits for review of manuscript, visuals and critique |
| `FullPaperContents.SucceedsExactly` | orchestrator/internal/api/full_paper_routes.go:861-905 | an operation succeeds if and only if it names something that is there and, for an edit, has content |
| `FullPaperContents.RunWrites` | orchestrator/internal/api/full_paper_routes.go:861-1365 | after any run every draft is what the successful operations naming it make of it, one after the other - text, version, id, marks - in the draft list, the drafting map and the latest snapshot |
| `FullPaperContents.LastWriteReads` | orchestrator/internal/api/full_paper_routes.go:883-895 | after a successful rewrite the draft reads as the trimmed revision, or without one as its trimmed old text with a note of the instructions, in every view; after an edit as the trimmed new text |
| `FullPaperContents.VisualApplied` | orchestrator/internal/api/full_paper_routes.go:1040-1090 | a refresh changes the first visual of its id and no other: caption, specification, packets, review status, version and id |
| `FullPaperContents.BundleShows` | orchestrator/internal/api/full_paper_routes.go:1091-1100 | after any run the latest bundle shows the visuals as they are |
| `FullPaperContents.TasksApplied` | orchestrator/internal/api/full_paper_routes.go:1398-1417 | a successful operation completes exactly the tasks of the section or visual it names |
| `FullPaperContents.AuditApplied` | orchestrator/internal/api/full_paper_routes.go:1367-1383 | a successful operation appends its own entry to the audit log |
| `FullPaperContents.SnapshotApplied` | orchestrator/internal/api/full_paper_routes.go:911-915 | a new snapshot is named after the latest one and the number of manuscripts, and no visual changes |
| `FullPaperContents.BundleApplied` | orchestrator/internal/api/full_paper_routes.go:1091-1096 | a new bundle is named after the latest one and the number of bundles, and no draft changes |
| `FullPaperContents.ReviewApplied` | orchestrator/internal/api/full_paper_routes.go:925-955 | a rewrite or a refresh asks for review of what it made, in job and workspace; an edit leaves checkpoint, status and stage alone |
| `CitationIntegrity.VerifySectionText` | orchestrator/internal/api/citation_verify_policy.go:154-170 | the outcomes of a section are its usable citations in order, each with the number of earlier ones of its marker |
| `CitationIntegrity.OccurrencesIdentify` | orchestrator/internal/api/citation_verify_policy.go:154-188 | marker and occurrence number identify a citation within its section |
| `CitationIntegrity.VerifyWorkspace` | orchestrator/internal/api/citation_verify_policy.go:237-254 | the outcomes of a workspace are those of its non-blank drafts in order, against the first source bundle |
| `CitationIntegrity.SummarizeOutcomes` | orchestrator/internal/api/citation_verify_policy.go:200-235 | the summary counts and the ungrounded list are those of the outcomes |
| `CitationIntegrity.UngroundedAgrees` | orchestrator/internal/api/citation_verify_policy.go:200-235 | the ungrounded count is the length of the list, which holds exactly the unverified outcomes |
| `CitationIntegrity.FailingSectionIds` | orchestrator/internal/api/citation_verify_policy.go:323-337 | the loop returns the failing section ids in order of first failure |
| `CitationIntegrity.OutcomesAre` | orchestrator/internal/api/citation_verify_policy.go:43-170 | an outcome is verified exactly when its citation resolves by marker or with a confidence of at least a half, and carries its section, marker and number |
| `CitationIntegrity.KeptExactly` | orchestrator/internal/api/citation_verify_policy.go:154-170 | exactly the citations with a marker and something to resolve them by are kept |
| `CitationIntegrity.OccurrencesAre` | orchestrator/internal/api/citation_verify_policy.go:154-170 | citations are numbered by the number of earlier ones with their marker |
| `CitationIntegrity.SourcesAreFirst` | orchestrator/internal/api/citation_verify_policy.go:237-254 | the sources are those of the first source bundle that has any |
| `CitationIntegrity.FingerprintDecides` | orchestrator/internal/api/citation_verify_policy.go:309-321 | for ids without separators two fingerprints are equal if and only if the same citations of the same sections are ungrounded, in the same order |
| `CitationIntegrity.FingerprintCanCollide` | orchestrator/internal/api/citation_verify_policy.go:309-321 | with separators in ids one ungrounded citation and two can have the same fingerprint |
| `CitationIntegrity.FailingIdsFacts` | orchestrator/internal/api/citation_verify_policy.go:323-337 | the ids are distinct and are exactly the non-blank ids with an unverified outcome |
| `CitationIntegrity.FingerprintNotEmpty` | orchestrator/internal/api/citation_verify_policy.go:309-321 | outcomes with something ungrounded never have an empty fingerprint |
| `CitationReground.FailingIdsAreDrafts` | orchestrator/internal/api/citation_verify_policy.go:237-337 | a section id fails if and only if it is not blank and a draft with that id has an unverified citation |
| `CitationReground.RoundTargets` | orchestrator/internal/api/full_paper_citation_integrity.go:60-68 | the sections rewritten in a round are distinct failing drafts the user has not edited |
| `CitationReground.RewriteAllEffect` | orchestrator/internal/api/full_paper_citation_integrity.go:60-68 | a round raises exactly its targets by one version and leaves every other draft as it was |
| `CitationReground.RewriteFailing` | orchestrator/internal/api/full_paper_citation_integrity.go:59-71 | the loop over failing sections performs exactly those rewrites, and none fails on a consistent job |
| `CitationReground.RegroundPass` | orchestrator/internal/api/full_paper_citation_integrity.go:42-72 | one turn of the loop leaves the rest of the loop unchanged, and cannot fail on a consistent job |
| `CitationReground.Reground` | orchestrator/internal/api/full_paper_citation_integrity.go:25-92 | re-grounding ends within its limit, keeps the job consistent, raises no section by more than a version per round, leaves user-edited and never-failing sections untouched, and stops for one of four reasons, a repeated fingerprint being that of the job the last round started from; a first round is never taken for a repeat |
| `CitationReground.RegroundStops` | orchestrator/internal/api/full_paper_citation_integrity.go:42-74 | for any job: the rounds run out exactly at the limit; otherwise the next pass over the returned job stops for the reason given, and the last round is the pass from the job of one round earlier, compared with the fingerprint of the round before |
| `CitationReground.RepeatIsReal` | orchestrator/internal/api/full_paper_citation_integrity.go:50-58 | when the loop stops on a repeated fingerprint, its last round rewrote a non-empty set of sections and the job before and after that round have the same fingerprint |
| `CitationReground.StubbornRepeats` | orchestrator/internal/api/full_paper_citation_integrity.go:42-74 | a job of one draft whose one citation no source resolves, and whose text the model returns unchanged, stops on a repeated fingerprint at every limit of two or more |
| `CitationReground.RepeatCanHappen` | orchestrator/internal/api/full_paper_citation_integrity.go:50-58 | such a fresh job exists |
| `CitationReground.RegroundRounds` | orchestrator/internal/api/full_paper_citation_integrity.go:42-74 | the loop computes the rounds function |
| `CitationReground.FinishReground` | orchestrator/internal/api/full_paper_citation_integrity.go:76-91 | the report is the verification of the job returned, which the lost audit entry does not change |
| `CitationReground.RegroundJob` | orchestrator/internal/api/full_paper_citation_integrity.go:25-92 | the whole operation: exact job, report of that job, and success on every consistent job |
| `CitationReground.EveryReachableJobAgrees` | orchestrator/internal/api/full_paper_citation_integrity.go:25-92 | every job reached by rewrites, edits, visual refreshes and re-groundings in any order is consistent, and its manuscript bundle is the latest manuscript if and only if no rewrite or edit has succeeded |
| `CitationReground.TurnsAreRun` | orchestrator/internal/api/full_paper_citation_integrity.go:25-92 | any history with re-groundings ends in the job of some run of the three operations, so what runs keep, histories keep |
| `CitationReground.TurnsGrow` | orchestrator/internal/api/full_paper_citation_integrity.go:25-92 | over any such history, from any job: no artifact or audit entry is lost or changed, one snapshot per section version gained, one bundle per visual version, one audit entry per artifact |
| `CitationReground.EditIsKept` | orchestrator/internal/api/full_paper_citation_integrity.go:59-68 | a draft the user edited is left exactly as it is by any number of re-groundings |
| `EvidenceDossier.BuildDossier` | orchestrator/internal/api/full_paper_routes.go:657-708 | the dossier is exactly the four status lists in packet order and the group-by of the verified findings |
| `EvidenceDossier.MergeConclusion` | orchestrator/internal/api/full_paper_routes.go:1596-1625 | merging one finding gives the index and order of the longer list of findings |
| `EvidenceDossier.MergeIsConclusion` | orchestrator/internal/api/full_paper_routes.go:1596-1625 | merging into an existing conclusion is the conclusion of the longer group |
| `EvidenceDossier.FirstIsConclusion` | orchestrator/internal/api/full_paper_routes.go:1614-1624 | the conclusion of one finding |
| `EvidenceDossier.FirstOfGroup` | orchestrator/internal/api/full_paper_routes.go:1605-1624 | a claim not seen before starts a group of its own |
| `EvidenceDossier.FindingsSplit` | orchestrator/internal/api/full_paper_routes.go:668-691 | the four lists partition the packets |
| `EvidenceDossier.PacketGoes` | orchestrator/internal/api/full_paper_routes.go:668-691 | the list and the finding of each packet: contradictory when it names a contradiction, otherwise by its verifier status |
| `EvidenceDossier.TitlesAppend` | orchestrator/internal/api/full_paper_routes.go:1608-1613 | titles are looked up source by source, in order |
| `EvidenceDossier.FindingsHaveStatus` | orchestrator/internal/api/full_paper_routes.go:1660-1673 | each list holds findings of its status only |
| `EvidenceDossier.TopScoreIsMaximum` | orchestrator/internal/api/full_paper_routes.go:1627-1643 | the support score of a group is attained in it and exceeded by none |
| `EvidenceDossier.ConclusionOfFinding` | orchestrator/internal/api/full_paper_routes.go:1596-1625 | every verified finding with a claim belongs to exactly one conclusion, whose score is at least its own |
| `EvidenceDossier.ConclusionIdsComeFromGroup` | orchestrator/internal/api/full_paper_routes.go:1614-1624 | the finding ids of a conclusion are exactly those of the findings making its claim |
| `EvidenceDossier.ConclusionSourcesComeFromGroup` | orchestrator/internal/api/full_paper_routes.go:1608-1622 | the source ids of a conclusion are exactly those of the findings making its claim |
| `EmbeddingRecovery.EmbeddingService.EmbedBatch` | sidecar/services/embedding_service.py:119-142 | the batched path returns exactly the answer function, or the first failure, and sends exactly the requests of its batches up to that failure |
| `EmbeddingRecovery.EmbeddingService.EmbedWithRecovery` | sidecar/services/embedding_service.py:144-158 | the recursion returns the recovery of its batch and sends exactly its requests |
| `EmbeddingRecovery.EmbeddingService.RecoverSingleEmbedding` | sidecar/services/embedding_service.py:160-184 | the candidates are tried in order until one is accepted; other failures end it |
| `EmbeddingRecovery.AnswerIsPerItem` | sidecar/services/embedding_service.py:119-158 | for a provider that rejects exactly batches with a bad text, the answer has the length of the input, every good text its own vector at its own position, every bad one what it gets alone, and blanks zero vectors |
| `EmbeddingRecovery.BatchSizeIsIrrelevant` | sidecar/services/embedding_service.py:135-140 | the answer is the same for every batch size |
| `EmbeddingRecovery.BisectionRefinesPerItem` | sidecar/services/embedding_service.py:144-158 | recovering a batch gives every item what it would get alone |
| `EmbeddingRecovery.BisectionCost` | sidecar/services/embedding_service.py:144-184 | b bad texts among n cost at most 2n - 1 + 3b requests, and at most 1 + b(2 depth + 3) |
| `EmbeddingRecovery.AnswerCost` | sidecar/services/embedding_service.py:119-184 | a whole call for n non-blank texts, b of them bad, in m batches sends at most 2n - m + 3b requests and at most m - 1 + budget(b, depth of a full batch): one per batch when none is bad |
| `EmbeddingRecovery.BatchesIs` | sidecar/services/embedding_service.py:135-140 | the number of batches is the number of texts over the batch size, rounded up |
| `EmbeddingRecovery.BudgetIs` | sidecar/services/embedding_service.py:144-184 | the request budget for b bad texts at depth d is 1 + b(2d + 3) |
| `EmbeddingRecovery.DepthIsLogarithmic` | sidecar/services/embedding_service.py:154 | the depth of bisection is at most k for 2^k items |
| `EmbeddingRecovery.AtMostThreeCandidates` | sidecar/services/embedding_service.py:236-252 | a rejected text is retried in at most three forms, distinct, non-empty and different from the text |
| `EmbeddingRecovery.SingleIsFirstGood` | sidecar/services/embedding_service.py:160-184 | the single recovery gives the first accepted candidate, or the zero vector |
| `EmbeddingRecovery.RecoveredKeys` | sidecar/services/embedding_service.py:144-158 | whatever the provider does, a recovery writes only to positions of its batch |
| `EmbeddingForms.CandidatesAre` | sidecar/services/embedding_service.py:236-252 | the forms of a rejected text, cut by cut: three quarters of the limit or one token less than the text, a half, a quarter |
| `EmbeddingForms.TriedExactly` | sidecar/services/embedding_service.py:236-252 | exactly the forms of cuts that are positive and below the token count are tried, when they are not empty and differ from the text |
| `EmbeddingForms.RejectedGets` | sidecar/services/embedding_service.py:160-184 | a rejected text gets the embedding of the first of its cuts that is accepted, and zeros if none is |
| `EmbeddingForms.AnswerSpelledOut` | sidecar/services/embedding_service.py:119-184 | each position of the whole answer in terms of normalisation, token count and truncation alone |
| `EmbeddingForms.FailureEnds` | sidecar/services/embedding_service.py:119-184 | any other failure of the provider ends the call, and nothing is sent after it |
| `Chunking.TrimSpan` | sidecar/services/chunking_service.py:79-86 | the trimmed span, or none exactly when the stretch is blank |
| `Chunking.NextCut` | sidecar/services/chunking_service.py:94-102 | the window is cut at its end, at the last break in its second half, or hard at the limit |
| `Chunking.SplitOversizedSpan` | sidecar/services/chunking_service.py:89-110 | the inner splitter ends and returns exactly the pieces of the span |
| `Chunking.PiecesFacts` | sidecar/services/chunking_service.py:89-110 | pieces lose nothing but whitespace, are no longer than the limit, and cut a word only where the second half of the window has no break |
| `Chunking.SentenceBoundarySplit` | sidecar/services/chunking_service.py:113-139 | the bounded sentence spans, in order, trimmed, with only whitespace outside them |
| `Chunking.CoveredOnce` | sidecar/services/chunking_service.py:113-139 | every non-whitespace character lies in exactly one span |
| `Chunking.TilesConcat` | sidecar/services/chunking_service.py:131-139 | spans covering neighbouring stretches together cover both |
| `Chunking.ChunkWithOffsets` | sidecar/services/chunking_service.py:142-202 | the chunks are the runs of a packing of the bounded sentence spans, each with its content, offsets, page and section |
| `Chunking.PackSpans` | sidecar/services/chunking_service.py:157-199 | the packing loop makes one chunk for each run of a packing |
| `Chunking.KeepOverlap` | sidecar/services/chunking_service.py:176-183 | the shortest tail of at least the overlap is kept, or everything |
| `Chunking.PackingIsUnique` | sidecar/services/chunking_service.py:157-199 | limit and overlap determine every chunk: two packings of the same spans are equal |
| `Chunking.ChunksAdvance` | sidecar/services/chunking_service.py:161-186 | each chunk starts no earlier, ends strictly later and adds a new span |
| `Chunking.OffsetsAdvance` | sidecar/services/chunking_service.py:164-173 | emitted starts and pages never decrease and ends strictly increase |
| `Chunking.CharacterIsChunked` | sidecar/services/chunking_service.py:142-202 | every non-whitespace character of the document is in some chunk |
| `Chunking.CarriedSize` | sidecar/services/chunking_service.py:176-183 | a chunk inherits nothing without overlap and at most limit + overlap - 1 characters with it |
| `Chunking.OversizedExactly` | sidecar/services/chunking_service.py:163-186 | a chunk exceeds the limit if and only if its inherited overlap leaves no room for its first new span, and then adds no other |
| `Chunking.ChunkSize` | sidecar/services/chunking_service.py:142-202 | spans of a chunk total at most the limit without overlap and 2 * limit + overlap - 1 with it |
| `Chunking.ChunkSizeIsTight` | sidecar/services/chunking_service.py:176-186 | the bound is attained for every limit and every positive overlap, by spans that are apart |
| `Chunking.ContentLength` | sidecar/services/chunking_service.py:168 | joined content adds one space between neighbouring spans |
| `Chunking.ContentExceeds` | sidecar/services/chunking_service.py:168 | content exceeds the limit exactly when characters and spaces together do |
| `Chunking.ContentExceedsWitness` | sidecar/services/chunking_service.py:163-168 | it does so even without overlap |
| `Chunking.FindPage` | sidecar/services/chunking_service.py:60-68 | the page is one more than the leading breaks at or before the offset |
| `Chunking.FindSection` | sidecar/services/chunking_service.py:71-76 | the first section containing the offset |
| `ChunkSpans.SentencesExactly` | sidecar/services/chunking_service.py:113-139 | the sentence spans are exactly the trimmed stretches between breaks |
| `ChunkSpans.BoundExactly` | sidecar/services/chunking_service.py:113-139 | a span within the limit is kept, a longer one is replaced by its pieces, and nothing else appears |
| `ChunkSpans.OverlapIsShortest` | sidecar/services/chunking_service.py:176-183 | the overlap kept is the shortest tail at least as long as asked for, or everything |
| `Chunking.CutIsLastBreak` | sidecar/services/chunking_service.py:94-102 | the cut is the last newline, space or tab in the second half of the window, and the end of the window exactly when there is none |
| `Chunking.DetectSections` | sidecar/services/chunking_service.py:46-57 | sections run from heading to heading and the last to the end |
| `Chunking.SectionIsLastHeading` | sidecar/services/chunking_service.py:46-76 | the section of an offset is that of the last heading at or before it |
| `TreeCache.TreeCacheService.Get` | sidecar/services/tree_cache_service.py:16-20 | a hit moves the entry to the end, a miss changes nothing |
| `TreeCache.TreeCacheService.Put` | sidecar/services/tree_cache_service.py:22-27 | the entry goes to the end and the oldest beyond the size are dropped; a negative size fails with an empty cache |
| `TreeCache.TreeCacheService.EvictOldest` | sidecar/services/tree_cache_service.py:26-27 | the loop leaves the newest entries that fit |
| `TreeCache.TreeCacheService.Invalidate` | sidecar/services/tree_cache_service.py:29-30 | the key is removed, and the answer says whether it was there |
| `TreeCache.TreeCacheService.Clear` | sidecar/services/tree_cache_service.py:32-33 | nothing is left |
| `TreeCache.RunValid` | sidecar/services/tree_cache_service.py:12-33 | no run holds more than the size, or a key twice |
| `TreeCache.RecencyOrderAndLastValue` | sidecar/services/tree_cache_service.py:16-27 | entries stand in order of their last use, each with the value last put |
| `TreeCache.PutIsHeld` | sidecar/services/tree_cache_service.py:22-27 | whatever the cache holds, a put key is its newest entry and is found |
| `TreeCache.InvalidateForgets` | sidecar/services/tree_cache_service.py:29-30 | an invalidated key is not found and every other lookup is as before |
| `TreeCache.Resident` | sidecar/services/tree_cache_service.py:16-27 | a key survives every trace that neither invalidates nor clears it and uses fewer than size other keys since its last use, with the value last put |
| `TreeCache.HeldExactly` | sidecar/services/tree_cache_service.py:22-27 | over puts alone a key is held if and only if it was put and fewer than size distinct keys were put after it |
| `TreeCache.CoupledRun` | sidecar/services/tree_cache_service.py:12-33 | two sizes over one trace: the smaller cache is the larger restricted to some keys, with at most as many free slots |
| `TreeCache.Inclusion` | sidecar/services/tree_cache_service.py:12-33 | the smaller recency order is a subsequence of the larger, every hit of the smaller is a hit of the larger with the same value, and free slots never favour the smaller |
| `TreeCache.MoreRoomMoreHits` | sidecar/services/tree_cache_service.py:16-20 | a larger cache never has fewer hits on any trace |
| `SemanticCaches.SemanticCache.Set` | sidecar/services/semantic_cache.py:371-377 | room is made even for a key that is there, then the key is assigned |
| `SemanticCaches.SemanticCache.Delete` | sidecar/services/semantic_cache.py:403-409 | the key is removed from memory |
| `SemanticCaches.SemanticCache.ClearNamespace` | sidecar/services/semantic_cache.py:421-443 | memory is emptied; the count is the entries and the keys deleted from Redis |
| `SemanticCaches.SemanticCache.Load` | sidecar/services/semantic_cache.py:186-203 | only an absent key with an embedding is loaded; a record without a value evicts and fails |
| `SemanticCaches.SemanticCache.Warm` | sidecar/services/semantic_cache.py:158-213 | the warm-up loads the scanned records in order and happens once |
| `SemanticCaches.SemanticCache.FindSimilar` | sidecar/services/semantic_cache.py:302-317 | the first of the most similar current entries that reach the threshold, if any |
| `SemanticCaches.SemanticCache.GetExact` | sidecar/services/semantic_cache.py:245-289 | Redis first, then memory; a stale version is a miss; hit counts exactly, with the record that counts twice |
| `SemanticCaches.SemanticCache.Get` | sidecar/services/semantic_cache.py:229-330 | an exact hit, a stale miss, or the best similar entry; no hit moves an entry |
| `SemanticCaches.RunBounded` | sidecar/services/semantic_cache.py:188-190 | in every run the dictionary holds at most its maximum, each key once |
| `SemanticCaches.Survives` | sidecar/services/semantic_cache.py:371-377 | a key outlives every run with no more other insertions than keys before it and free slots, and holds the entry last put |
| `SemanticCaches.NewKeySurvives` | sidecar/services/semantic_cache.py:371-377 | a new key survives max - 1 further insertions |
| `SemanticCaches.FirstInFirstOut` | sidecar/services/semantic_cache.py:371-377 | fresh keys leave first in, first out: the dictionary holds the newest |
| `SemanticCaches.SurvivesExactly` | sidecar/services/semantic_cache.py:371-377 | over fresh insertions a key survives if and only if they are no more than its slack |
| `SemanticCaches.SetAgain` | sidecar/services/semantic_cache.py:371-377 | setting a key again keeps its place unless it is the oldest of a full dictionary; a full one loses its oldest key |
| `SemanticCaches.WarmIsRun` | sidecar/services/semantic_cache.py:158-213 | a warm-up is a run of the loads its records call for, so every bound on runs applies to it |
| `SemanticCaches.WarmUp` | sidecar/services/semantic_cache.py:158-213 | a warm-up that fits keeps every entry and loads every record with embedding and value |
| `SemanticLookups.ExactByCases` | sidecar/services/semantic_cache.py:245-289 | the exact lookup by cases: Redis first, a record of another version is a miss, memory only without a usable record |
| `SemanticLookups.FoundIsOwn` | sidecar/services/semantic_cache.py:245-289 | an exact hit is the value of a record or entry of the key with the version of the cache or none |
| `SemanticLookups.SetThenGet` | sidecar/services/semantic_cache.py:371-377 | after a set and any run within the slack that spares the key, the lookup without Redis finds the value last put |
| `SemanticLookups.DeleteForgets` | sidecar/services/semantic_cache.py:403-409 | a deleted key is gone and every other entry stays |
| `SemanticLookups.BestIsEligible` | sidecar/services/semantic_cache.py:302-317 | the entry served by similarity has the version of the cache or none and reaches the threshold; no eligible one is more similar |
| `SemanticLookups.NothingPassedOver` | sidecar/services/semantic_cache.py:302-317 | some entry is served if and only if one is eligible |
| `SemanticLookups.LoadsExactly` | sidecar/services/semantic_cache.py:186-203 | exactly which records are loaded, and as what |
| `SemanticLookups.LostHitsAre` | sidecar/services/semantic_cache.py:258-284 | which lookups count a hit they do not return |
| `RaptorTree.KRangeFacts` | sidecar/services/raptor_service.py:286-289 | the range of cluster counts is never empty nor beyond the items; the minimum is kept exactly when below count - 1 |
| `RaptorTree.ChooseK` | sidecar/services/raptor_service.py:298-310 | the loop picks the best cut |
| `RaptorTree.BestIsFirstMaximum` | sidecar/services/raptor_service.py:298-310 | the first cut of maximal score above -1, else the least |
| `RaptorTree.KRangeEnd` | sidecar/services/raptor_service.py:286-289 | the upper end is the largest count below the number of items that is at most a third of them or one above the minimum |
| `RaptorTree.KRangeFallback` | sidecar/services/raptor_service.py:286-289 | for a minimum too large for the items the range is from 2 to half of them, and to 3 at least |
| `RaptorTree.GroupByLabel` | sidecar/services/raptor_service.py:312-316 | groups by label in order of first appearance |
| `RaptorTree.GroupsPartition` | sidecar/services/raptor_service.py:312-316 | grouping partitions the labelled items |
| `RaptorTree.AdaptiveCluster` | sidecar/services/raptor_service.py:276-316 | clustering of the items, or one group when there is too little or the linkage fails |
| `RaptorTree.BuildTree` | sidecar/services/raptor_service.py:22-153 | the build gives exactly the tree function, or fails on ragged vectors |
| `RaptorTree.RaptorService.BuildAdaptiveTree` | sidecar/services/raptor_service.py:22-153 | a built tree is stored and reported; a failed build stores nothing |
| `RaptorTree.ClustersPartitionLeaves` | sidecar/services/raptor_service.py:64-96 | a successful build clusters exactly as many first leaves as have embeddings; the clusters partition the leaves if and only if every leaf has one |
| `RaptorTree.LeafCanBeLeftOut` | sidecar/services/raptor_service.py:64-96 | under cuts with at most k labels and scores only for 2 to n - 1 labels, a build over three embedded leaves and one without an embedding succeeds and leaves a leaf out of every cluster |
| `RaptorTree.TopicsPartitionClusters` | sidecar/services/raptor_service.py:100-115 | topics partition the clusters |
| `RaptorTree.BuildSucceeds` | sidecar/services/raptor_service.py:64-136 | when the embedded leaves come first and share one dimension the build succeeds, if all are embedded or the linkage can be computed |
| `RaptorTree.BuildFailsExactly` | sidecar/services/raptor_service.py:64-129 | a build fails if and only if it meets ragged vectors: among the embedded leaves, in a cluster, among clusters it groups, or under the root |
| `RaptorTree.LevelsBuilt` | sidecar/services/raptor_service.py:64-136 | clusters exactly for three embedded leaves, topics exactly over three clusters when three levels are allowed, a root exactly when four are |
| `RaptorTree.VectorsAfterRun` | sidecar/services/raptor_service.py:83-255 | after any run every cluster still has the mean vector of the leaves it was built from, and the root that of the nodes under it |
| `RaptorTree.EmbeddedBuildSucceeds` | sidecar/services/raptor_service.py:64-136 | with one dimension everywhere the build succeeds |
| `RaptorTree.UpperPapersBuilt` | sidecar/services/raptor_service.py:104-129 | as built, topics and root list exactly the papers of their children |
| `RaptorTree.BuiltLevelsFit` | sidecar/services/raptor_service.py:87-129 | nodes of a built tree carry the level of their list |
| `RaptorTree.FindCluster` | sidecar/services/raptor_service.py:230-243 | the loop finds the nearest cluster |
| `RaptorTree.NearestIsMaximal` | sidecar/services/raptor_service.py:230-243 | the nearest cluster is the first of maximal score above -1 among those with an embedding |
| `RaptorTree.HomeExactly` | sidecar/services/raptor_service.py:225-243 | exactly which cluster a new leaf joins, and when none |
| `RaptorTree.AttachLeaves` | sidecar/services/raptor_service.py:225-248 | the loop attaches every new leaf in turn |
| `RaptorTree.AttachedIsGrown` | sidecar/services/raptor_service.py:225-248 | each cluster ends as it was plus the leaves it is nearest to, in order of arrival |
| `RaptorTree.RaptorService.IncrementalUpdate` | sidecar/services/raptor_service.py:201-271 | an update gives exactly the updated tree; an unknown id builds a new one under a fresh id |
| `RaptorTree.RunIsOneUpdate` | sidecar/services/raptor_service.py:201-271 | any run of updates is one update with all new leaves |
| `RaptorTree.MembersConserve` | sidecar/services/raptor_service.py:225-248 | the clusters hold the built leaves and each new leaf with a home, once |
| `RaptorTree.TreeAfterRun` | sidecar/services/raptor_service.py:201-271 | after any run: all nodes are leaves, clusters, topics and root; children and papers are those of the members; topics, root and level count are as built |
| `RaptorTree.ClusterPapersFollowChildren` | sidecar/services/raptor_service.py:245-248 | with distinct leaf ids, the papers of a cluster are always those of the leaves its children name |
| `RaptorTree.UpperPapersGoStale` | sidecar/services/raptor_service.py:245-255 | one attachment: a node over the clusters lists a subset of the papers under it, and all of them if and only if every leaf attached there brought a paper it had |
| `RaptorTree.TopicPapersAfterRun` | sidecar/services/raptor_service.py:201-271 | after any run on a built tree: each topic lists a subset of the papers of its clusters, and all of them if and only if no leaf attached under it brought a paper it did not list |
| `RaptorTree.RootPapersAfterRun` | sidecar/services/raptor_service.py:201-271 | after any run on a built tree, with topics or without: the root lists all the papers of the clusters if and only if no attached leaf brought a new one |
| `RaptorTree.TopicAndRootCanGoStale` | sidecar/services/raptor_service.py:245-316 | under such cuts and scores: six leaves in three pairs and one update after which a topic and the root miss a paper of their clusters |
| `RaptorTree.LevelsAreHighest` | sidecar/services/raptor_service.py:139-153 | for nodes with the levels of their lists the level count is one above the highest and the total counts every node |
| `RaptorTree.LevelsAfterRun` | sidecar/services/raptor_service.py:139-271 | after any run of updates on a built tree every node still carries the level of its list, so the level count is one above the highest |
| `RaptorTree.CandidatesAre` | sidecar/services/raptor_service.py:170-181 | the nodes scored are exactly those of a wanted level with a usable embedding |
| `RaptorTree.ScoredExactly` | sidecar/services/raptor_service.py:170-181 | a node is scored exactly when its level is wanted and it has a non-zero vector |
| `RaptorTree.SliceKeeps` | sidecar/services/raptor_service.py:190-199 | the slice keeps the first top_k, or all but the last for a negative one |
| `RaptorTree.NoQueryNoAnswer` | sidecar/services/raptor_service.py:155-168 | without a query vector nothing is found |
| `RaptorTree.QueryIsBest` | sidecar/services/raptor_service.py:155-199 | a query returns what the slice keeps, best first, and omits none that ranks above a returned one |
| `LexicalSearch.CountFrequencies` | sidecar/services/bm25_service.py:35-38 | each token is mapped to the number of documents containing it |
| `LexicalSearch.AddDocument` | sidecar/services/bm25_service.py:35-38 | a document counts each of its distinct tokens once, in any order of the set |
| `LexicalSearch.IdfPositive` | sidecar/services/bm25_service.py:51-52 | every idf is positive |
| `LexicalSearch.PositiveExactlyWhenShared` | sidecar/services/bm25_service.py:40-56 | a score is never negative and is positive exactly when the document contains a query token |
| `LexicalSearch.BM25Index.AddDocuments` | sidecar/services/bm25_service.py:89-114 | new documents replace the index; none leave it alone |
| `LexicalSearch.BM25Index.GetScores` | sidecar/services/bm25_service.py:40-56 | the scores are those of the formula, from the stored frequencies |
| `LexicalSearch.BM25Index.Search` | sidecar/services/bm25_service.py:116-155 | the hits of the positive documents among the top ones, or an index error |
| `LexicalSearch.TopIndicesFacts` | sidecar/services/bm25_service.py:22-24 | the slice of the stable sort, reversed: nothing left out outranks anything kept |
| `LexicalSearch.SearchFindsBest` | sidecar/services/bm25_service.py:137-153 | for any top_k: at most what the slice keeps, positive, non-increasing, and a positive document is left out only when that many no worse ones are returned |
| `LexicalSearch.TopKIsABound` | sidecar/services/bm25_service.py:137-153 | at most top_k documents are returned if and only if top_k is at least 1, or is 0 and nothing matches; never for a negative one |
| `LexicalSearch.SearchFindsSharing` | sidecar/services/bm25_service.py:116-155 | only documents sharing a token are found, and one that does is left out only for as many no worse ones as the slice keeps |
| `LexicalSearch.ZeroMeansAll` | sidecar/services/bm25_service.py:141 | top_k 0 returns every matching document |
| `LexicalLaws.RarerWeighsMore` | sidecar/services/bm25_service.py:51-52 | of two tokens the one in fewer documents weighs more |
| `LexicalLaws.SaturationIs` | sidecar/services/bm25_service.py:53-54 | the saturation in closed form; the floor of its denominator is never reached |
| `LexicalLaws.MoreOccurrences` | sidecar/services/bm25_service.py:53-54 | another occurrence counts for more, and all together for less than 2.5 |
| `LexicalLaws.LongerCountsLess` | sidecar/services/bm25_service.py:53-54 | the same occurrences count for less in a longer document |
| `LexicalLaws.ScoreAdds` | sidecar/services/bm25_service.py:46-55 | the score of a query is the sum over its tokens |
| `LexicalLaws.WeightIs` | sidecar/services/bm25_service.py:47-54 | a token adds its idf times its saturation, and nothing when it does not occur |
| `LexicalLaws.CountIs` | sidecar/services/bm25_service.py:48 | the term frequency is the number of occurrences |
| `LexicalLaws.ContainingIs` | sidecar/services/bm25_service.py:35-38 | the document frequency is the number of documents with the token |
| `LexicalLaws.AverageIs` | sidecar/services/bm25_service.py:34 | the average length times the number of documents is the total length |
| `Ranking.RankFacts` | sidecar/services/bm25_service.py:22-24 | a stable sort orders the positions and keeps each once |
| `ResilienceProbe.Perform` | orchestrator/internal/api/middleware.go:132-161 | each step of the interleavings is what the shared variables undergo: an arrival is the read, taking the lock the second check, the end of a probe the write of its result |
| `ResilienceProbe.RunSound` | orchestrator/internal/api/middleware.go:117-168 | in every interleaving probes are disjoint and more than the interval apart, and the flag is the last result, true before any |
| `ResilienceProbe.ProbesAreRare` | orchestrator/internal/api/middleware.go:141-159 | n probes take more than n - 1 intervals |
| `ResilienceProbe.FlagWasShared` | orchestrator/internal/api/middleware.go:132-164 | the flag a request carries was shared at some moment of the request: when it read, or when its own probe finished |
| `ResilienceProbe.WaiterCanBeStale` | orchestrator/internal/api/middleware.go:135-164 | a request that waited for another probe can carry the flag from before it |
| `ResilienceProbe.ReaderCanBeStale` | orchestrator/internal/api/middleware.go:132-164 | so can one that never takes the lock |
| `ResilienceProbe.ChangedExactly` | orchestrator/internal/api/middleware.go:143-161 | between two moments of a run the flag differs if and only if the last probe finished in between came out the other way |
| `ResilienceProbe.ServedFlagExactly` | orchestrator/internal/api/middleware.go:132-164 | a request is served the current flag when its own probe just finished, and otherwise the one it read on arrival, which is out of date if and only if the last probe finished since then came out the other way |
| `ResilientConfig.BuildResilientConfig` | sidecar/services/genai_native_config.py:49-79 | the loop ends for every constructor, with the outcome of the shrinking function |
| `ResilientConfig.ShrinkPartitions` | sidecar/services/genai_native_config.py:61-79 | kept and dropped fields partition the given ones, only optional fields are dropped, each once |
| `ResilientConfig.ShrinkExactly` | sidecar/services/genai_native_config.py:61-79 | for a constructor rejecting exactly some fields, the loop builds if and only if all of them given are optional, from exactly the others |
| `DiverseSelection.ChosenExactly` | sidecar/services/gemini_service.py:2986-2998 | a candidate is chosen if and only if fewer than n were chosen before it and it is unlike each of them |
| `DiverseSelection.ChosenIsDiverseAndMaximal` | sidecar/services/gemini_service.py:2986-2998 | the choice keeps order, takes at most n, is pairwise within the limit, and unless n were taken every rejected candidate clashes with an earlier chosen one |
| `DiverseSelection.FirstIsChosen` | sidecar/services/gemini_service.py:2986-2998 | the first candidate is chosen when one is asked for |
| `DiverseSelection.SelectByVectors` | sidecar/services/gemini_service.py:2985-2998 | the loop over vectors makes the choice |
| `DiverseSelection.SelectByTokens` | sidecar/services/gemini_service.py:3007-3020 | the loop over token sets makes the choice |
| `DiverseSelection.Diversify` | sidecar/services/gemini_service.py:2979-3020 | by vectors when they are available and fit the candidates, else by tokens |
| `DiverseSelection.VectorsSpread` | sidecar/services/gemini_service.py:2985-2998 | chosen vectors are pairwise at least the distance apart, and unless n were chosen every other one is nearer to an earlier chosen one |
| `DiverseSelection.TokensSpread` | sidecar/services/gemini_service.py:3007-3020 | the same by tokens, with one less their overlap as distance |
| `DiverseSelection.OverlapIs` | sidecar/services/gemini_service.py:3007-3020 | the overlap is the common share of the tokens: 0 exactly when disjoint, 1 exactly when equal and not empty |
| `SchemaAnnotation.Idempotent` | sidecar/services/ai_generation_service.py:232-255 | annotating twice is annotating once |
| `SchemaAnnotation.EraseUndoesAnnotate` | sidecar/services/ai_generation_service.py:232-255 | erasing the added orderings gives back the input |
| `SchemaAnnotation.AnnotateOrders` | sidecar/services/ai_generation_service.py:232-255 | every object node reached lists its properties in their original order, or keeps the ordering it had |
| `SchemaAnnotation.AnnotatedNode` | sidecar/services/ai_generation_service.py:235-242 | a node with properties has an ordering afterwards, and needs none added again |
| `Strings.UniqueStrings` | orchestrator/internal/api/wisdev_route_helpers.go:990-1005 | the trimmed non-blank values in order of first appearance |
| `Strings.SpacesAre` | orchestrator/internal/api/wisdev_route_helpers.go:990-1005 | the space characters, one by one |
| `Strings.StripIs` | orchestrator/internal/api/wisdev_route_helpers.go:990-1005 | trimming takes exactly the spaces at both ends |
| `Strings.UniqueIsClean` | orchestrator/internal/api/wisdev_route_helpers.go:990-1005 | the result has no blank and no duplicate, and is exactly the trimmed non-blank values |
| `Strings.UniqueMerge` | orchestrator/internal/api/wisdev_route_helpers.go:990-1005 | de-duplicating a prefix first makes no difference |

## Left out

- Timestamps, `updatedAt`, optimistic concurrency, titles, summaries, export formats and stage lists of the full-paper job, and the contents of older snapshots, whose maps may be shared with newer ones.
- Checkpoint and control actions on a job: they are not in the modelled files.
- Default instruction texts, prompts and what a language model writes: arguments of the operations.
- Unresolved issues, evidence snippets and per-finding metadata of the dossier.
- The structured-citation and marker-resolution rules behind a citation's resolution: the resolver, the citation extractor and the HTML stripper are functions.
- `lastPassSummary` and `lastPassUngrounded` of re-grounding, which only repeat the last verification inside the loop.
- RetryEngine.Lower: lower-cases ASCII letters only; the source lower-cases all of Unicode.
- The HTTP retry loop inside `_request_embeddings`: one request has one outcome.
- The third structured loop `_generate_native_structured` and the embedding retry loops: the same pattern as the two modelled ones.
- Regular expressions and tokenisers: sentence breaks are disjoint whitespace spans in order, section matches are sorted positions, and tokens are given.
- Floating point: numbers are real, and the rounding of a timeout is modelled exactly to thousandths.
- Linkage, silhouette, means and cosine in RAPTOR: functions of the vectors; summaries and leaf offsets are not kept; `paper_ids` is a set, not a sorted list; node ids are constructors instead of `cluster_0`-style strings.
- Vectors of different lengths in an incremental update or a query, which raise part-way.
- RAPTOR and chunking log output, `has_tree`, `stats`, `size` and `is_empty`: easy members.
- The in-place sharing of node dictionaries between a tree's lists: nodes are values, and `all_nodes` is rebuilt as the source does.
- Redis writes of the semantic cache and its embedding cache: what Redis holds is arbitrary at every call.
- The seconds a record lives: the in-memory dictionary ignores them, as the source does.
- BM25 through the `rank_bm25` package: only the fallback scorer is modelled.
- Which exception texts name a configuration field: the constructor reports names.
- Sharing inside a schema: `_annotate` works on a deep copy, so nodes are values; keys it knows are constructors standing for their strings.
