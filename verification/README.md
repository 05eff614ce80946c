# Entity resolution: the reconcile engine and the consoles around it

This project models the parts of an entity-resolution platform in which state is
carried from step to step, and proves what those parts promise over every input
and every run.

**The engine** (`RecordGraph`, `Clustering`, `ShortestPath`, `NeverCut`, `Reconcile`,
`Ledger`, `Stage`, and `JobDag`, `JobClear`, `JobRun`, `JobForesight`, `JobExamples`,
`JobFailure`, `ServerClear`). Scored links between records are adjusted by steward
assertions, cut where a `never` pair would still share a cluster, clustered with a
union-find, and the clusters are given the ids their members had before. The chain
of results is: the union-find labels every record with the least key of its
component; the breadth-first search returns the least of all paths; the cutting
loop separates exactly the `never` pairs that cuts can separate and escalates
exactly the others; the id plan gives two records one id exactly when they are
clustered together, touches nothing that did not change, and its events replay to
the new membership in any order; over every history of runs redirects never cycle;
and `Stage.Run` puts these together into what a run decides and which reviews it
writes. `JobRun` takes a job through every interleaving of sweeps, launches, reports,
retries, segment hand-offs, cancels and clears, and proves that no two tasks ever hold
a pod, that a task at work has all its upstream ended, and exactly when two lake
writers of an accepted graph are active together; `JobFailure` adds that nothing that
needs a failed task to succeed ever runs.

**The console** (`JsText`, `EventStream`, `PercentCode`, `LastDataset`, `Editors`,
`ReviewInbox`, `Labeling`, `AiSettings`, `Sessions`, `SourceWizard`, `Proposals`,
`Histogram`) and **the chart gate** (`HookOrder`): the streaming chat reader, the
cookie memory, the ordered-list editors, the triage cursor, the labelling queue,
per-organisation AI settings, sliding sessions, source activation, the proposal
parser, the score histogram and the Helm hook-order check.

## How the model reads the source

- Record keys, entity ids and review ids are only compared, so each is an integer:
  its place in the total order of the strings. Probabilities are reals (finite, no
  rounding unless said). Text is a sequence of Unicode scalar values, except where the
  source counts length, where it is UTF-16 code units.
- `JSON.parse`, sealing and opening a key, clocks, id factories and the outcome of
  every HTTP request are parameters; a theorem quantifies over them.
- The cut list is applied by comparing stored orientation, which removes every cut link
  only if no cut link is stored in reverse (`Stage.CutsAppliedIff`); the loaders give
  canonical pairs, so the stage never meets such a link.
- A segment hand-off requires every upstream of the next task to have succeeded, as
  docs/batch-orchestration-design.md:446 asks of its handler; the two statements it runs
  do not check this themselves.
- Code that updates state is a class with its fields or a method with a loop; each is
  proved against a function or predicate about which the laws are then proved.

Where the code does not do what its documentation or the obvious reading says, the
model follows the code and the exact condition is proved:

- A `never` pair is escalated when the *least* path between its records has nothing
  cuttable on it; the design document speaks of every path. The two agree in effect:
  `NeverCut.NeverCutFixpoint` escalates exactly the pairs no set of permitted cuts can
  separate (`NeverCut.UnsatisfiableIff`).
- An escalated pair becomes a review only if some record is protected or the tenant's
  constraints gave a `never` pair; otherwise it stays together and nobody is asked
  (`Stage.Run`, `Stage.SilentContradiction`).
- The assembly check on lake writers and the one-pod index are described as two images
  of one rule. The second holds over every run (`JobRun.NoTwoPods`); the first does not
  by itself keep two writers from being active: a clear can leave a later writer
  restarting while an earlier one is scheduled (`JobExamples.ClearOverlaps`), and a cancel can
  schedule a writing teardown, or end a task, while an earlier task is still in its pod
  (`JobExamples.CancelOverlaps`, `JobExamples.CancelOutruns`). When two writers are active together
  is exact in every phase (`JobRun.WritersOverlapAnyIff`) and, more simply, outside a
  cancel (`JobRun.WritersOverlapIff`). What can be checked before the operator acts is
  exact too: before a clear (`JobForesight.ClearOverlapIff`, `JobForesight.WriterClearIff`) and before
  a cancel (`JobForesight.CancelOverlapIff`, `JobForesight.TeardownOverlapIff`).
- The design document makes the entity with the largest overlap the claimant of a
  group; the code lets every entity offer its id to one group and every group accept
  one offer. The two agree exactly when the group also holds the largest part of that
  entity (`Reconcile.ClaimantIff`, `Reconcile.LargestOverlapLoses`).
- The design document merges an entity that loses all its members to the claimant; the
  code also merges one whose remaining members went elsewhere
  (`Reconcile.MergedInPart`, `Reconcile.MergedWhollyIff`).
- The "no progress" error of the cutting loop cannot happen (`NeverCut.NeverCutFixpoint`).
- The other error of that loop says of itself that it means "a protected-edge cycle or a
  defect, not slow convergence". It does mean slow convergence: a pair with more common
  neighbours than the rounds allow always ends in it, with every link cuttable and
  nothing protected, whatever the limit (`NeverCut.NeverCutFixpoint`,
  `NeverCut.FanStarved`), and a limit of at least the cuttable pairs plus the never pairs
  always avoids it. Between these two bounds the order of the cuts decides.
- Remembering the empty dataset name makes the last dataset unknown again instead of
  keeping the last non-empty one (`LastDataset.ReadsLastRemembered`).
- A labelling verdict followed by a refetch does not always leave fewer pairs: when
  the server's queue is longer than a page, the next pair moves up
  (`Labeling.VerdictShrinks`).
- Pressing `j` on an empty inbox makes the cursor negative, and no row is active once
  rows load (`ReviewInbox.DownOnEmpty`, `ReviewInbox.CursorStays`).
- The settings preview names a different reason than the saved row exactly when AI is
  switched on, a stored key that cannot be opened is kept and the deployment has no
  key (`AiSettings.PreviewPredicts`).
- An expired session can become live again exactly when a lookup that read it before
  it expired has not yet written its slide (`Sessions.ExpiredForGoodIff`,
  `Sessions.RevivedAfterExpiry`).
- The hook-order gate does not look at the phase of a hook ServiceAccount
  (`HookOrder.OtherPhaseSlipsThrough`); a silent gate is right exactly when the account
  named is a hook of the same phase (`HookOrder.SilenceRightIff`, `HookOrder.GateExact`).
- A value that reads 0.58, 0.60, 0.70, 0.72, 0.82 or 0.94 is counted one bucket below the
  one its decimal belongs to: the double nearest to it lies below the boundary. Of the
  double itself the index is exact but for the rounding of one product, which can only
  take it up to a boundary (`Histogram.RoundedIndex`).
- A clear that finds an upstream's output lost starts that upstream again without its
  other readers, so its closure need not be closed downward (`JobClear.ClosedDownIff`,
  `JobClear.ForkSplits`); the server reports every output as present, and then it is.

## Model

| member | source | states |
|---|---|---|
| Clustering.UnionFind.constructor | rust/crates/er-reconcile/src/cluster.rs:17-27 | every index starts as its own representative, in a valid forest |
| Clustering.UnionFind.Find | rust/crates/er-reconcile/src/cluster.rs:29-35 | returns the representative of the index; halving the path changes no set and keeps the forest well founded, so the walk ends |
| Clustering.UnionFind.Union | rust/crates/er-reconcile/src/cluster.rs:37-42 | the representatives afterwards are the old ones with one set redirected to the other and nothing else moved |
| Clustering.UnionAll | rust/crates/er-reconcile/src/cluster.rs:58-66 | after all links are fed in, equal representatives imply connectedness and linked records have equal representatives |
| Clustering.RepresentsIff | rust/crates/er-reconcile/src/cluster.rs:45-83 | equal representatives and being connected by a walk of links are the same relation |
| Clustering.LabelPropagate | rust/crates/er-reconcile/src/cluster.rs:45-83 | every record and link endpoint is labelled, with a key it is connected to, which is the least such key |
| Clustering.SharedLabel | rust/crates/er-reconcile/src/cluster.rs:1-13 | two records share a label if and only if they are connected |
| Clustering.LabelsDetermined | rust/crates/er-reconcile/src/cluster.rs:1-13 | the labelling depends on the undirected graph alone, not on the order of records and links or on link orientation |
| ShortestPath.Adjacency | rust/crates/er-reconcile/src/never_cut.rs:54-66 | the neighbour lists hold exactly the undirected adjacency, for exactly the endpoints |
| ShortestPath.LexTrans | rust/crates/er-reconcile/src/never_cut.rs:68-70 | the order on vertex sequences is transitive |
| ShortestPath.LexTotal | rust/crates/er-reconcile/src/never_cut.rs:68-70 | the order on vertex sequences is total |
| ShortestPath.LexMeaning | rust/crates/er-reconcile/src/never_cut.rs:68-70 | one sequence comes before another if and only if at the first place they differ it has the smaller vertex, or has ended |
| ShortestPath.LexAppend | rust/crates/er-reconcile/src/never_cut.rs:88-102 | extending two equally long sequences by the same vertex keeps their order, which is why one candidate per record is enough |
| ShortestPath.Offer | rust/crates/er-reconcile/src/never_cut.rs:90-103 | one neighbour: a new record gets the candidate and is queued, a record of the next depth keeps the smaller sequence, any other is untouched |
| ShortestPath.HeadOptimal | rust/crates/er-reconcile/src/never_cut.rs:86-88 | the record at the head of the queue already holds the least path to it among all paths |
| ShortestPath.Expand | rust/crates/er-reconcile/src/never_cut.rs:86-105 | scanning the neighbours of the record taken keeps the whole search invariant: depths, queue order, candidates, finality |
| ShortestPath.FindPath | rust/crates/er-reconcile/src/never_cut.rs:68-107 | none if and only if the records are not connected; otherwise a path with fewest hops and, among those, the lexicographically smallest |
| NeverCut.ChooseCutEdge | rust/crates/er-reconcile/src/never_cut.rs:109-143 | none if and only if no hop of the path may be cut; otherwise the least cuttable hop by probability and then keys |
| NeverCut.FirmPath | rust/crates/er-reconcile/src/never_cut.rs:109-143 | a path without a cuttable hop connects its ends through links no cut may touch |
| NeverCut.Components | rust/crates/er-reconcile/src/never_cut.rs:145-177 | component numbers are equal if and only if the records are connected, for all seeded and linked records |
| NeverCut.DropFirm | rust/crates/er-reconcile/src/never_cut.rs:258-268 | cutting a cuttable pair leaves the set of untouchable links as it was |
| NeverCut.CutStep | rust/crates/er-reconcile/src/never_cut.rs:258-268 | one cut keeps: every cut justified at its time, untouchable links unchanged, no pair cut twice, only cuttable pairs cut |
| NeverCut.EscalateStep | rust/crates/er-reconcile/src/never_cut.rs:247-257 | an escalated pair is joined through untouchable links of the original graph |
| NeverCut.UnsatisfiableIff | rust/crates/er-reconcile/src/never_cut.rs:109-143 | a pair is joined through untouchable links if and only if every choice of permitted cuts leaves it connected |
| NeverCut.Round | rust/crates/er-reconcile/src/never_cut.rs:239-270 | a round keeps both invariants and, if there was a violation, cuts or escalates something new |
| NeverCut.NeverCutFixpoint | rust/crates/er-reconcile/src/never_cut.rs:179-275 | when it settles, a never pair is still connected if and only if it is joined through untouchable links, exactly those pairs are escalated, every cut was the least hop of the least path when made, and it settled at most one thing per never pair and round; it never stops for lack of progress; it exceeds its limit always when a separable pair has more common neighbours than the limit times the never assertions, and only below cuttable pairs plus never pairs |
| NeverCut.CutsCoverCommon | rust/crates/er-reconcile/src/never_cut.rs:239-270 | separating two records takes at least as many cuts as they have common neighbours |
| NeverCut.FanStarved | rust/crates/er-reconcile/src/never_cut.rs:37-45 | for every limit a graph with nothing protected on which one never pair exceeds it |
| NeverCut.Conclude | rust/crates/er-reconcile/src/never_cut.rs:213-231 | with no violation left, what the loop kept is the whole promise |
| NeverCut.CheckContradiction | rust/crates/er-reconcile/src/assertions.rs:67-132 | reports one finding for each listing of an offending assertion, with its explanation, ordered by pair |
| NeverCut.FindingsMeaning | rust/crates/er-reconcile/src/assertions.rs:67-132 | the findings are exactly the active never assertions whose records are connected by active always assertions, each with exactly the always assertions and the records of that component |
| Reconcile.Pick | rust/crates/er-reconcile/src/reconcile.rs:150-159 | the fragment picked is a candidate that no other candidate outranks by size and then least member |
| Reconcile.Decide | rust/crates/er-reconcile/src/reconcile.rs:168-266 | every prior entity with a surviving member offers its id to its first-ranked group, every group offered an id accepts the first-ranked offer, every other group and orphan gets a new distinct id, in key order |
| Reconcile.PlanAssignments | rust/crates/er-reconcile/src/reconcile.rs:268-400 | the assignment rows are exactly the records whose entity changes, with the entity they get |
| Reconcile.PlanTransitions | rust/crates/er-reconcile/src/reconcile.rs:268-400 | the transition rows are exactly the new entities, the kept ones whose members changed, the merged ones with their target, and the retired ones |
| Reconcile.PlanEvents | rust/crates/er-reconcile/src/reconcile.rs:268-400 | the events are exactly those that creations, additions, splits, removals, merges and retirements call for |
| Reconcile.ReconcilePlan | rust/crates/er-reconcile/src/reconcile.rs:161-413 | a sound decision together with exactly its assignment, transition and event rows |
| Reconcile.TargetPartition | rust/crates/er-reconcile/src/reconcile.rs:161-266 | two records get the same entity if and only if they are the same record or share a group |
| Reconcile.LostIdUnused | rust/crates/er-reconcile/src/reconcile.rs:346-381 | a prior id that holds any record afterwards was kept, by the group it offered itself to |
| Reconcile.MergeTarget | rust/crates/er-reconcile/src/reconcile.rs:346-381 | a merged entity lost its id to another prior entity that keeps its own, and at least one of its records went there |
| Reconcile.ClaimantIff | DesignDoc.md:662-663 | a group takes the id of the entity it overlaps most if and only if that entity's part in this group outranks its part in every other group |
| Reconcile.LargestOverlapLoses | rust/crates/er-reconcile/src/reconcile.rs:193-235 | concrete partitions on which a group takes another id than that of the entity it overlaps most |
| Reconcile.EvenSplit | DesignDoc.md:670-670 | of equal parts of a split entity the one with the least record keeps the id |
| Reconcile.MintInOrder | rust/crates/er-reconcile/src/reconcile.rs:255-266 | each new id is the one handed out after one for every smaller key |
| Reconcile.MergedIff | rust/crates/er-reconcile/src/reconcile.rs:346-381 | an entity is merged if and only if it loses its id and some record of it is still in a group |
| Reconcile.MergedWhollyIff | DesignDoc.md:662-664 | all records of a merged entity end in its target if and only if one group holds them all |
| Reconcile.MergedInPart | rust/crates/er-reconcile/src/reconcile.rs:346-381 | a concrete pair of partitions on which an entity is merged although one of its records ends elsewhere |
| Reconcile.UntouchedRows | DesignDoc.md:660-672 | an entity whose members are a group again keeps every member and appears in no assignment or transition row |
| Reconcile.UntouchedEvents | DesignDoc.md:660-672 | no event mentions an entity whose members are a group again |
| Reconcile.EmptyPlanIff | rust/crates/er-reconcile/src/reconcile.rs:133-148 | there is nothing to write if and only if the new groups are the prior entities' member sets |
| Reconcile.EventAgrees | rust/crates/er-reconcile/src/reconcile.rs:268-400 | every event puts its members where they end, or takes them out of an entity they do not end in |
| Reconcile.ChangeExplained | rust/crates/er-reconcile/src/reconcile.rs:268-400 | every record whose entity changes is a member of some event that moves it |
| Reconcile.ReplayOne | rust/crates/er-reconcile/src/reconcile.rs:268-400 | after replaying any part of the events, a record that some replayed event moved is at its target, one not yet moved is where it was or nowhere, and one that belongs where it was never leaves |
| Reconcile.LedgerReplays | rust/crates/er-reconcile/src/reconcile.rs:268-400 | the events, replayed in any order and with any repetition over the prior membership, give exactly the new membership |
| Reconcile.DecisionDetermined | rust/crates/er-reconcile/src/reconcile.rs:168-235 | offers and acceptances are determined by the prior entities and the groups |
| Ledger.RunKeepsConsistent | rust/crates/er-reconcile/src/reconcile.rs:362-379 | one run, followed by any pruning of records, keeps: live ids were handed out and redirect nowhere, redirects point to later-merged or live ids |
| Ledger.RunsKeepConsistent | rust/crates/er-cli/src/lib.rs:3237-3283 | the same over every sequence of runs |
| Ledger.RedirectsNeverCycle | rust/crates/er-ids/src/lib.rs:258-286 | over every history from an empty lake, no chain of redirects meets an id twice |
| Ledger.Resolve | rust/crates/er-ids/src/lib.rs:258-286 | the id returned redirects no further and is reached within the hop limit; a cycle error shows a cycle; a length error means the limit was used up; on redirects without a cycle there is no cycle error, and with a limit of at least the table's size it always resolves |
| Ledger.OneEnd | rust/crates/er-ids/src/lib.rs:258-286 | from one id only one final id can be reached, by one chain |
| Ledger.MergesAreRows | rust/crates/er-reconcile/src/reconcile.rs:362-379 | the redirects a run writes are exactly the merged rows of its plan |
| Ledger.AfterExactly | rust/crates/er-cli/src/lib.rs:3237-3283 | after a run each record still in the corpus is exactly where the plan puts it |
| Stage.CutsAppliedIff | rust/crates/er-cli/src/lib.rs:3209-3216 | filtering by stored orientation leaves what the cuts leave if and only if no cut link is stored in reverse |
| Stage.GroupsPartition | rust/crates/er-cli/src/lib.rs:3262-3270 | the groups read off the labels are disjoint and non-empty, each named by its least member |
| Stage.ClusteredTogether | rust/crates/er-cli/src/lib.rs:3262-3283 | two records end in one entity if and only if the clustering connects them |
| Stage.AlwaysFirm | rust/crates/er-cli/src/lib.rs:3164-3173 | an always link that is kept may not be cut while the protection threshold is at most one, whatever its pair scored |
| Stage.ContradictionUnsatisfiable | rust/crates/er-cli/src/lib.rs:3164-3209 | a never pair joined by kept always links is one no cut can satisfy |
| Stage.WriteReviews | rust/crates/er-cli/src/lib.rs:3217-3233 | a pair is written as a review if and only if it was escalated and some record is protected or some constraint gave a never pair |
| Stage.SilentContradiction | rust/crates/er-cli/src/lib.rs:3164-3233 | three records on which no cut can satisfy a never pair and escalations are not surfaced |
| Stage.SilentRun | rust/crates/er-cli/src/lib.rs:3217-3233 | a run on them succeeds, leaves the never pair in one entity and writes no review |
| Stage.DirectLinkDropped | rust/crates/er-cli/src/lib.rs:3186-3191 | the direct link of a never pair is never clustered, so only links through other records can join it |
| Stage.OfferedIs | rust/crates/er-cli/src/lib.rs:3146-3191 | the links a run starts from are exactly the scored and always links with both ends unsuppressed whose very pair is not forbidden |
| Stage.HeldIsFirm | rust/crates/er-cli/src/lib.rs:3164-3209 | the links no cut may touch are exactly those of them with a protected end, or with a probability at or above the threshold, an always link counting as one and a scored pair at its last score |
| Stage.Run | rust/crates/er-cli/src/lib.rs:3079-3283 | told from the inputs and the cuts alone: two records share an entity if and only if they are the same or connected by the links offered and not cut; a record has an entity if and only if it is in the corpus and unsuppressed or had one, or such a link names it; a forbidden pair shares one if and only if held links join it, and is put up for review if and only if besides some record is protected or a constraint gave a pair; the prior entities are the members still in the corpus; the plan is exactly the rows of a sound decision; it fails whenever a separable pair has too many common neighbours, and only below the iteration bound |
| JobDag.Reaches | rust/crates/er-dag/src/assembly.rs:79-98 | true if and only if a route of edges leads from one node to the other |
| JobDag.WritersCheck | rust/crates/er-dag/src/assembly.rs:216-236 | accepts if and only if any two lake writers have a route between them |
| JobDag.Pass | rust/crates/er-dag/src/readiness.rs:116-192 | one sweep gives every untouched task the verdict of its trigger rule on its upstream states as already changed by the same sweep, and changes no other task |
| JobDag.AllSucceededVerdict | rust/crates/er-dag/src/readiness.rs:116-138 | after a sweep an untouched task of this rule is scheduled if and only if all its upstream succeeded, and skipped, cancelled or failed by its upstream, or still waiting, under exact conditions on the upstream states by name |
| JobDag.AllTerminalVerdict | rust/crates/er-dag/src/readiness.rs:119-140 | scheduled if all upstream has ended and waiting otherwise |
| JobDag.AnyFailedVerdict | rust/crates/er-dag/src/readiness.rs:119-153 | scheduled if and only if all upstream has ended and some of it failed, timed out or failed by its own upstream; skipped if none did |
| JobDag.PassWaits | rust/crates/er-dag/src/readiness.rs:116-192 | a sweep changes only untouched tasks, only once all their upstream has ended, and only to scheduled or ended |
| JobDag.PassForetold | rust/crates/er-dag/src/readiness.rs:165-192 | a sweep is a function of the states before it |
| JobDag.Settle | rust/crates/er-dag/src/readiness.rs:207-246 | over if and only if every task has ended; failed if and only if some last non-teardown task failed, timed out or failed by its upstream, otherwise cancelled if and only if one was cancelled, otherwise succeeded; not over, the first task not ended decides: deadlock if it is untouched with all upstream ended, not yet if not |
| JobDag.PassLeavesNoDeadlock | rust/crates/er-dag/src/readiness.rs:202-227 | after a sweep no untouched task has all its upstream ended, so the deadlock verdict cannot follow a sweep |
| JobDag.PassNeverStuck | rust/crates/er-dag/src/readiness.rs:202-227 | after a sweep either some task is active or every task has ended |
| JobClear.ClearClosure | rust/crates/er-dag/src/resume.rs:26-66 | the seeds, exactly what they lead to if asked for, and beyond those exactly the upstream reached upward through lost outputs; nothing is demanded when no output is lost |
| JobClear.ServerClosure | rust/crates/er-server/src/lib.rs:4213-4228 | with every output taken as present the closure is exactly what the task leads to |
| JobClear.ClosedDownIff | rust/crates/er-dag/src/resume.rs:34-60 | the closure holds everything its tasks feed if and only if it holds everything the demanded ones feed |
| JobClear.ForkSplits | rust/crates/er-dag/src/resume.rs:44-60 | two readers of a lost source: clearing one starts the source again and leaves the other |
| JobRun.StepSound | rust/crates/er-server/src/taskpg.rs:271-405 | every move (sweep, claim, start, finish, failure, requeue, hand-off, cancel, clear, restart) keeps one pod, the waiting, and nothing being cancelled outside a cancel |
| JobRun.AdvanceSound | rust/crates/er-server/src/taskpg.rs:337-418 | the hand-off of a segment pod to its next task keeps them |
| JobRun.CancelSound | rust/crates/er-server/src/executor.rs:680-715 | both halves of the cancel sweep keep them |
| JobRun.ClearSound | rust/crates/er-server/src/taskpg.rs:264-333 | a clear of a task and everything it leads to keeps them |
| JobRun.ExecutionSound | rust/crates/er-server/src/executor.rs:238-258 | every state of every run keeps them |
| JobRun.NoTwoPods | entities/task_instance/update/claim_launch.sql:1-27 | over every run no two tasks hold a pod |
| JobRun.NoTwoWriting | rust/crates/er-dag/src/assembly.rs:216-219 | over every run no two lake writers run at once |
| JobRun.WorkWaits | rust/crates/er-dag/src/readiness.rs:165-192 | over every run, cancels and clears included, a task at work has all its upstream ended |
| JobRun.LaunchesWhileOpen | entities/task_instance/update/claim_launch.sql:1-27 | a task enters its pod or body only while its job runs, or as a teardown under a cancel, or handed on by the pod it shares |
| JobFailure.SweepDeadens | rust/crates/er-dag/src/readiness.rs:116-192 | a sweep schedules nothing that needs a failed task to succeed, directly or through others |
| JobFailure.StepDeadens | rust/crates/er-server/src/taskpg.rs:190-405 | no move but a clear naming the failed task changes that |
| JobFailure.FailureStops | rust/crates/er-dag/src/readiness.rs:165-192 | over every run, once a task of a running job has failed for good, nothing that needs it to succeed is ever at work until a clear names it |
| JobFailure.SettleFailed | rust/crates/er-dag/src/readiness.rs:207-246 | a job that ends uncancelled after such a failure settles failed |
| JobRun.OverlapIff | rust/crates/er-server/src/taskpg.rs:264-333 | outside a cancel, a task and one it leads to are active together if and only if the first is active and the second restarting |
| JobRun.UncutEnded | rust/crates/er-server/src/executor.rs:680-715 | in any phase, whatever leads to a task at work, or ended otherwise than by the cancel, along a route without a cancelled task has ended |
| JobRun.OverlapAnyIff | rust/crates/er-server/src/executor.rs:680-715 | in any phase, they are active together if and only if the first is active and the second is leaving its pod, or is at work with a cancelled task on every route between them |
| JobRun.DirectOverlap | rust/crates/er-server/src/executor.rs:680-715 | in any phase, a task and its direct upstream are active together if and only if the upstream is active and the task is restarting or being cancelled |
| JobRun.WritersOverlapAnyIff | rust/crates/er-dag/src/assembly.rs:216-236 | over every run of an accepted graph, in every phase, two lake writers are active together if and only if the earlier is active and the later is leaving its pod or at work behind a cancelled task on every route |
| JobRun.WritersOverlapIff | rust/crates/er-dag/src/assembly.rs:216-236 | over every run of an accepted graph, outside a cancel, if and only if the later one is restarting while the earlier is active |
| JobRun.WritersNeverOverlap | rust/crates/er-dag/src/assembly.rs:216-236 | in every run of an accepted graph without a cancel and without a clear of a live writer no two writers are ever active |
| JobForesight.ClearOverlapIff | entities/task_instance/update/restart_cleared.sql:1-4 | foretold from the state before: after a clear and the next sweep two writers are active if and only if the clear finds one in its pod and the sweep of the cleared tasks starts another |
| JobForesight.WriterClearIff | rust/crates/er-server/src/lib.rs:4213-4240 | clearing an ended writer whose rule fires makes two writers active if and only if a later writer is in its pod |
| JobForesight.CancelOverlapIff | rust/crates/er-server/src/executor.rs:680-715 | foretold from the state before: after a cancel, its sweep and the next readiness sweep two writers are active if and only if each of two is in its pod, or is a teardown that is active or will be started |
| JobForesight.HaltedState | entities/task_instance/update/cancel_live.sql:1-4 | the cancel sweep leaves teardowns, cancels what has not begun, asks what is in its pod to end, and leaves what has ended |
| JobForesight.TeardownOverlapIff | rust/crates/er-server/src/executor.rs:680-715 | with one writing teardown whose rule fires once the rest is halted, if and only if another writer is in its pod when the cancel comes |
| ServerClear.ClearTask | rust/crates/er-server/src/lib.rs:4213-4260 | the closure the server computes and what the clear makes of each task are exactly the clear move |
| JobExamples.ClearOverlaps | entities/task_instance/update/restart_cleared.sql:1-4 | a run of two writers in which a clear leaves one scheduled and the other restarting |
| JobExamples.CancelOutruns | entities/task_instance/update/cancel_pending.sql:1-4 | a run in which a task is cancelled while its upstream is still being cancelled |
| JobExamples.CancelOverlaps | entities/task_instance/update/cancel_pending.sql:1-4 | a run in which a cancel leaves a writer in its pod and a writing teardown scheduled |
| EventStream.BoundaryMeaning | frontend/src/components/assistant/assistant-chat.tsx:106-113 | the boundary found is the leftmost blank line, and none is reported only if there is none |
| EventStream.FramesAppend | frontend/src/components/assistant/assistant-chat.tsx:104-113 | reading a text in two pieces gives the frames and the residue of reading it whole, even when a boundary straddles the cut |
| EventStream.FramesMeaning | frontend/src/components/assistant/assistant-chat.tsx:106-113 | the frames, each with its blank line, and the residue make up the text again, and no frame reaches past a blank line |
| EventStream.FieldsMeaning | frontend/src/components/assistant/assistant-chat.tsx:114-118 | the event name and the data of a frame are what follows its first line starting with each prefix |
| EventStream.IncrementalIsBatch | frontend/src/components/assistant/assistant-chat.tsx:102-118 | the frames and residue of feeding chunks one by one are those of one split of the whole text |
| EventStream.ChunkingIndependent | frontend/src/components/assistant/assistant-chat.tsx:102-118 | two chunkings of one text give the same frames in the same order and the same residue, which holds no blank line |
| EventStream.PrintedFrames | frontend/src/components/assistant/assistant-chat.tsx:108-118 | single-line events, printed and cut again, are recovered exactly and leave nothing over |
| EventStream.UpdateMeaning | frontend/src/components/assistant/assistant-chat.tsx:119-133 | a "text" event appends its delta, a "tool" event its citation, an "actions" event its proposals, an "error" event sets its message, and each changes nothing else |
| EventStream.FoldMeaning | frontend/src/components/assistant/assistant-chat.tsx:108-135 | for every list of frames: frames without both lines are passed over, the events before the first whose data cannot be read are taken up by name, and that one breaks the stream |
| EventStream.AnswerMeaning | frontend/src/components/assistant/assistant-chat.tsx:86-137 | for every response: a refused request says why; a stream read to its end is the turn that takes up its events, with the message of the last "error" event; a dropped or broken one what was read before, with the fixed fault |
| EventStream.StreamRoundTrip | frontend/src/components/assistant/assistant-chat.tsx:76-135 | any printed event list under any chunking ends as the answer with the deltas of "text", the citations of "tool" and the proposals of "actions" in order, and the last "error" message |
| EventStream.Chat.PatchLast | frontend/src/components/assistant/assistant-chat.tsx:76-84 | only the last turn changes, and nothing if there is none |
| EventStream.Chat.Dispatch | frontend/src/components/assistant/assistant-chat.tsx:114-133 | one frame updates the last turn by its event, or marks it broken when its data does not parse; earlier turns stay |
| EventStream.Chat.Feed | frontend/src/components/assistant/assistant-chat.tsx:108-134 | one chunk dispatches exactly the frames of buffer and chunk together and keeps their residue |
| EventStream.Chat.ReadAll | frontend/src/components/assistant/assistant-chat.tsx:102-135 | reading every chunk amounts to folding the frames of the whole text |
| EventStream.Chat.Respond | frontend/src/components/assistant/assistant-chat.tsx:86-137 | the answer turn is the one the whole response amounts to, including the error texts of a refused or broken stream |
| EventStream.Chat.Ask | frontend/src/components/assistant/assistant-chat.tsx:69-141 | exactly the question and one answer are appended and no earlier turn changes; a blank question, or one while busy, changes nothing |
| PercentCode.DecodeEncode | frontend/src/lib/last-dataset.ts:34-61 | percent-decoding an encoded text gives it back, for every text |
| PercentCode.EncodeSafe | frontend/src/lib/last-dataset.ts:34-38 | an encoded text holds no character that ends or pads a cookie |
| PercentCode.EncodePlain | frontend/src/lib/last-dataset.ts:34-38 | letters, digits and the nine marks are not escaped |
| PercentCode.StrayPercent | frontend/src/lib/last-dataset.ts:54-61 | a percent sign without two hexadecimal digits after it makes the text unreadable, whatever stands before it |
| PercentCode.DecodePlain | frontend/src/lib/last-dataset.ts:54-61 | text without a percent sign is read as it stands |
| JsText.TrimMeaning | frontend/src/lib/ai/form.ts:29-31 | trimming cuts off space in front and behind and nothing else, and leaves none |
| JsText.SplitJoin | frontend/src/lib/last-dataset.ts:48-53 | the parts of a split text, joined again, are the text |
| LastDataset.ReadLastDataset | frontend/src/lib/last-dataset.ts:48-64 | the scan loop returns what the first part with the cookie's name holds, or nothing |
| LastDataset.ReadRendered | frontend/src/lib/last-dataset.ts:48-64 | scanning a rendered cookie header is looking up the name in the cookie list |
| LastDataset.RememberingWellFormed | frontend/src/lib/last-dataset.ts:18-38 | what is written for a slug-shaped organisation and any dataset is a well-formed cookie |
| LastDataset.NamesDistinct | frontend/src/lib/last-dataset.ts:18-32 | different organisations use different cookie names |
| LastDataset.ReadsLastWritten | frontend/src/lib/last-dataset.ts:18-64 | after any writes of any well-formed cookies, reading gives what was last written under the organisation's own cookie name |
| LastDataset.ReadsLastRemembered | frontend/src/lib/last-dataset.ts:18-64 | when no other cookie takes that very name, reading gives the last dataset remembered for the organisation unless it is empty, and nothing for one never remembered |
| LastDataset.Jar.RememberDataset | frontend/src/lib/last-dataset.ts:34-38 | afterwards the organisation's name looks up the dataset (nothing for the empty one), every other name what it did before, and the jar stays well formed |
| LastDataset.LandsWhereRemembered | frontend/src/components/datasets/dataset-dispatcher.tsx:58-76 | the dispatcher lands on the remembered dataset if it is listed and not purging, never on a purging or unlisted one, and on creation exactly when nothing is left |
| LastDataset.DestinationExactly | frontend/src/components/datasets/dataset-dispatcher.tsx:58-76 | to creation if and only if nothing is left; to the remembered dataset while it is open; else to a dashboard if and only if exactly one is open, and then to that one |
| Editors.MovedSwaps | frontend/src/components/config/comparison-editor.tsx:34-45 | an offered move swaps two neighbours and nothing else |
| Editors.MovedMultiset | frontend/src/components/config/survivorship-editor.tsx:24-32 | every move keeps the multiset of entries |
| Editors.MoveUndone | frontend/src/components/config/blocking-editor.tsx:45-53 | the opposite move is offered afterwards and restores the list |
| Editors.EveryOrderReachable | frontend/src/components/config/comparison-editor.tsx:34-45 | any arrangement of the same entries is reached by offered moves of one place |
| Editors.TrailMultiset | frontend/src/components/config/comparison-editor.tsx:34-45 | conversely, offered moves reach only arrangements of the same entries |
| Editors.ComparisonEditor.MoveLevel | frontend/src/components/config/comparison-editor.tsx:34-45 | the spliced list is the specified move on the ordered levels with the null level put back last |
| Editors.ComparisonEditor.RemoveLevel | frontend/src/components/config/comparison-editor.tsx:47-55 | the level is removed unless it is the only ordered one |
| Editors.ComparisonEditor.AddLevel | frontend/src/components/config/comparison-editor.tsx:57-65 | the level is appended before the null level |
| Editors.ComparisonEditor.SetJaro | frontend/src/components/config/comparison-editor.tsx:67-75 | the threshold is set within its bounds, and an unreadable one changes nothing |
| Editors.OrderableWithNull | frontend/src/components/config/comparison-editor.tsx:26-32 | splitting off the null level undoes putting it back |
| Editors.NullLast | frontend/src/components/config/comparison-editor.tsx:30-32 | the null level, where there is one, stands behind all others |
| Editors.OrderableAppend | frontend/src/components/config/comparison-editor.tsx:26-29 | the ordered levels are the levels but the null ones, in their order |
| Editors.RemovedExactly | frontend/src/components/config/comparison-editor.tsx:47-55 | removing takes out that level and no other, unless it is the only one |
| Editors.AddedExactly | frontend/src/components/config/comparison-editor.tsx:57-65 | adding puts the level last, unless it is there |
| Editors.AddRemoved | frontend/src/components/config/comparison-editor.tsx:47-65 | any known level not in the list can be added, and removing it again restores the list |
| Editors.ThresholdExactly | frontend/src/components/config/comparison-editor.tsx:67-75 | setting a threshold changes that level alone, to the nearest value within its bounds |
| Editors.EditedSound | frontend/src/components/config/comparison-editor.tsx:119-189 | every offered edit keeps the ordered levels non-empty, without repeats and with at most one Jaro level, and a set threshold lies in [0.01, 1] |
| Editors.ApplySound | frontend/src/components/config/comparison-editor.tsx:26-75 | every edit keeps that, never changes whether the null level is present, and leaves it once and last |
| Editors.RunSound | frontend/src/components/config/comparison-editor.tsx:26-75 | the same over every run of offered edits |
| Editors.ApplyMove | frontend/src/components/config/comparison-editor.tsx:34-45 | a move on a list with its null level last is the move on the ordered levels |
| Editors.EveryLevelOrderReachable | frontend/src/components/config/comparison-editor.tsx:34-45 | every order of the comparison levels is reached by a run of offered move edits, the null level staying last |
| Editors.SurvivorshipEditor.MoveRule | frontend/src/components/config/survivorship-editor.tsx:24-32 | the chain becomes the specified move of it |
| Editors.SurvivorshipEditor.RemoveRule | frontend/src/components/config/survivorship-editor.tsx:34-38 | exactly that rule goes, and the chain never becomes empty |
| Editors.SurvivorshipEditor.AddRule | frontend/src/components/config/survivorship-editor.tsx:40-60 | a rule is appended once and never repeated |
| Editors.BlockingEditor.MoveBlock | frontend/src/components/config/blocking-editor.tsx:45-53 | the rules become the specified move of them |
| ReviewInbox.Inbox.Act | frontend/src/components/review/review-inbox.tsx:230-249 | a steward's verdict resolves the active row, removes it and pulls the cursor in; otherwise nothing changes |
| ReviewInbox.Inbox.KeyDown | frontend/src/components/review/review-inbox.tsx:251-277 | j and k move the cursor by one within its bounds |
| ReviewInbox.PressExactly | frontend/src/components/review/review-inbox.tsx:230-277 | what each press does to the cursor and the rows: one step within bounds, the row clicked, the active row and no other gone, loaded rows behind |
| ReviewInbox.TriageOrder | frontend/src/components/review/review-inbox.tsx:230-249 | repeated verdicts resolve the rows from the active one to the end and then backwards from before it |
| ReviewInbox.TriagedOnce | frontend/src/components/review/review-inbox.tsx:230-249 | repeated verdicts resolve every row exactly once |
| ReviewInbox.CursorStays | frontend/src/components/review/review-inbox.tsx:251-261 | a press keeps the cursor non-negative if and only if it is not a step down with no rows |
| ReviewInbox.RunsKeepActive | frontend/src/components/review/review-inbox.tsx:144-145 | over every run in which step down is pressed only with rows loaded, a row is active whenever there are rows |
| ReviewInbox.DownOnEmpty | frontend/src/components/review/review-inbox.tsx:251-261 | step down on an empty inbox followed by a page of rows leaves no row active |
| Labeling.CurrentIsFirst | frontend/src/lib/query/labeling.ts:71-76 | the pair asked about is the head of the unskipped pairs, and none only if there are none |
| Labeling.Labeller.SkipCurrent | frontend/src/components/labeling/labeling-content.tsx:82-93 | exactly the current pair joins the skipped set |
| Labeling.Labeller.Give | frontend/src/components/labeling/labeling-content.tsx:95-115 | a verdict is given if and only if the role may label and some pair is not skipped, and it names the pair on the page before which everything is skipped |
| Labeling.NextIsFirst | frontend/src/lib/query/labeling.ts:71-76 | the pair asked about is p if and only if p is on the page, not skipped, and everything before it is |
| Labeling.NeverSteppedPast | frontend/src/components/labeling/labeling-content.tsx:68-115 | under every interleaving of skips, verdicts given, answers to verdicts under way and refetches, a pair still in the queue and not skipped is still offered |
| Labeling.OnlyAskedLabelled | frontend/src/components/labeling/labeling-content.tsx:95-115 | a pair that leaves the queue had its verdict given while it was the pair asked about, whatever came before the answer |
| Labeling.QueueExactly | frontend/src/components/labeling/labeling-content.tsx:68-115 | the queue loses a pair only by an answer under way being recorded, and the page changes only by a refetch |
| Labeling.VerdictsExactly | frontend/src/components/labeling/labeling-content.tsx:82-115 | the skips grow only by the pair asked about; a verdict under way begins with that pair and ends with its answer, recorded or refused |
| Labeling.RefetchOffers | frontend/src/components/labeling/labeling-content.tsx:68-80 | what a refetch offers is exactly the unskipped part of the server's first page |
| Labeling.SkipShrinks | frontend/src/components/labeling/labeling-content.tsx:82-93 | every skip leaves strictly fewer pairs |
| Labeling.VerdictShrinks | frontend/src/lib/query/labeling.ts:120-126 | a recorded verdict and a refetch leave strictly fewer pairs if and only if no further pair moves up onto the page, or the one that does was skipped |
| AiSettings.Table.WriteSettings | frontend/src/lib/ai/config.ts:164-201 | the organisation's row becomes the old one with each field left, cleared or set; no other row changes |
| AiSettings.PreviewPredicts | frontend/src/lib/ai/config.ts:104-118 | the preview equals what the written row resolves to if and only if it is not the case that AI is on, no deployment key exists and an unreadable key is kept; then only the reason differs |
| AiSettings.HistoryKeepsKey | frontend/src/lib/ai/form.ts:29-37 | over every run of form saves the stored key opens to the last typed key not followed by a clear, and ciphertext, nonce and set-time are present together or not at all, the last being when that key was typed |
| AiSettings.SucceedsIff | frontend/src/lib/ai/resolve.ts:62-107 | a call is configured if and only if the view says enabled and an openable non-empty stored key or a deployment key exists; the stored key wins and uses no custom endpoint |
| AiSettings.ResolvedExactly | frontend/src/lib/ai/resolve.ts:62-107 | a resolved call uses the stored model, or the default of its purpose when none is stored, and the organisation's key at the public endpoint or exactly the deployment's key and endpoint; each failure reason has its exact condition |
| AiSettings.HistoryModel | frontend/src/lib/ai/form.ts:29-37 | over every run of saves the model in use is the one last saved, trimmed, or the default of the purpose when that box was blank |
| AiSettings.HistorySucceedsIff | frontend/src/lib/ai/config.ts:132-201 | after any run of saves a call is configured if and only if the last save enabled it and a typed key survives or a deployment key exists, and it uses the surviving key |
| Sessions.Store.Create | frontend/src/lib/auth/session.ts:33-43 | the row starts seen now and expires in thirty days |
| Sessions.Store.Destroy | frontend/src/lib/auth/session.ts:45-48 | exactly that session is removed |
| Sessions.Store.Identify | frontend/src/lib/auth/session.ts:51-76 | found if and only if stored and not expired; the row slides only if last seen more than an hour ago, and no other row changes |
| Sessions.ExpiryTracks | frontend/src/lib/auth/session.ts:28-76 | over every run of accepted uses the expiry is thirty days after a recorded use at most one hour before the last one |
| Sessions.FrequentUseNeverRefused | frontend/src/lib/auth/session.ts:12-13 | a session used at gaps below thirty days less an hour is never refused |
| Sessions.BoundIsTight | frontend/src/lib/auth/session.ts:12-13 | a gap of exactly thirty days less an hour can be refused |
| Sessions.NoUseAfterLife | frontend/src/lib/auth/session.ts:51-76 | no use is accepted thirty days or more after the previous one |
| Sessions.RefusedForGood | frontend/src/lib/auth/session.ts:51-76 | with lookups one at a time and a clock that does not go back, a refused session stays refused and unchanged |
| Sessions.DestroyedForGood | frontend/src/lib/auth/session.ts:45-76 | a destroyed session is accepted by no later lookup, however the reads and slides of concurrent lookups interleave |
| Sessions.ExpiredForGoodIff | frontend/src/lib/auth/session.ts:51-76 | an expired session is never accepted again under every interleaving if and only if no slide read before is still to be written |
| Sessions.RevivedAfterExpiry | frontend/src/lib/auth/session.ts:51-76 | a fresh session, read just before it expires and slid just after, is expired in between and accepted again |
| Sessions.ImpersonationFixed | frontend/src/lib/auth/session.ts:84-94 | no interleaving of lookups and slides changes the impersonation deadline |
| SourceWizard.Pipeline.SaveDraft | frontend/src/components/sources/new-source-wizard.tsx:277-290 | one draft request at most, whose version is kept if it succeeds |
| SourceWizard.Pipeline.Activate | frontend/src/components/sources/new-source-wizard.tsx:292-355 | runs the phases from the given one on, each only if the one before succeeded, and ends failed and not running or by navigating away |
| SourceWizard.OutcomesRecorded | frontend/src/components/sources/new-source-wizard.tsx:292-355 | a call records exactly the requests it sent, each with the outcome it met, and stops or leaves the page accordingly |
| SourceWizard.DraftRecorded | frontend/src/components/sources/new-source-wizard.tsx:277-290 | saving a draft records its outcome and starts nothing |
| SourceWizard.ActionAgrees | frontend/src/components/sources/new-source-wizard.tsx:399-465 | every offered action keeps the screen in agreement with how far the requests have come |
| SourceWizard.RunAgrees | frontend/src/components/sources/new-source-wizard.tsx:399-465 | the same over every run of offered actions |
| SourceWizard.ActivationTraces | frontend/src/components/sources/new-source-wizard.tsx:277-355 | every run's requests are a prefix of failed drafts, one draft, failed publishes, one publish, failed uploads, one upload; at most one draft is made, only it is published, and nothing is uploaded before |
| SourceWizard.RetriesComplete | frontend/src/components/sources/new-source-wizard.tsx:292-355 | a run that retries a failed publish and a failed upload at their own phases completes with one draft, published once |
| SourceWizard.NextFreeRank | frontend/src/components/sources/new-source-wizard.tsx:136-140 | ends with the least positive rank not in use, at most one more than the number in use |
| Proposals.ParseProposals | frontend/src/lib/agent-actions/propose.ts:104-137 | the loop returns the first three of the valid entries, de-duplicated by kind and subject keeping the first |
| Proposals.ValidMeaning | frontend/src/lib/agent-actions/propose.ts:107-128 | an entry is taken if and only if its kind is known, its subject is not blank and at most two hundred units, and a review verdict has a known resolution; the action is what it says: kind, trimmed subject, that resolution or none, the first three hundred units of the trimmed rationale |
| Proposals.ParsedExactly | frontend/src/lib/agent-actions/propose.ts:104-137 | the result is one action for each of the first three acceptable entries that repeat none before them, in their order, each what its entry says |
| Proposals.ActionFrom | frontend/src/lib/agent-actions/propose.ts:104-137 | every action comes from such an entry |
| Proposals.ParsedSound | frontend/src/lib/agent-actions/propose.ts:104-137 | at most three, pairwise distinct, each with a non-empty subject and with subject and rationale bounded in UTF-16 units, and a resolution exactly for review verdicts |
| Proposals.ParsedPrefix | frontend/src/lib/agent-actions/propose.ts:104-137 | more entries only add to the result |
| Proposals.ParsedTwice | frontend/src/lib/agent-actions/propose.ts:104-137 | parsing the result again keeps its length, kinds, subjects and resolutions |
| Proposals.GateWhole | frontend/src/lib/agent-actions/gate.ts:22-48 | stewards and admins get every proposal, viewers and unresolved sessions none |
| Histogram.Buckets | frontend/src/components/config/threshold-editor.tsx:39-47 | after the loop every bucket holds the number of values that fall in it, for any such rounding |
| Histogram.IndexMeaning | frontend/src/components/config/threshold-editor.tsx:39-47 | without rounding the index is k if and only if the value lies in the half-open interval of k, the last taking 1.0 too |
| Histogram.RoundedIndex | frontend/src/components/config/threshold-editor.tsx:43-43 | with any rounding that keeps order and integers the index is in range, and is the exact one, or the next if the place is rounded to the boundary between them |
| Histogram.BucketsConserve | frontend/src/components/config/threshold-editor.tsx:39-47 | the counts sum to the number of values at or above one half, for any such rounding |
| Histogram.CountPermutes | frontend/src/components/config/threshold-editor.tsx:39-49 | every count is independent of the order of the values |
| Histogram.BandsPartition | frontend/src/components/config/threshold-editor.tsx:49-49 | below, in and above the band partition the values when the lower threshold is not above the upper |
| Histogram.BandsOverlap | frontend/src/components/config/threshold-editor.tsx:49-49 | with the thresholds crossed a value is counted twice |
| Histogram.SlidersKeepOrder | frontend/src/components/config/threshold-editor.tsx:120-151 | over every run of slider moves the lower threshold stays below the upper |
| HookOrder.Check | scripts/ci/charts-check.py:285-333 | the problems reported are exactly the complaints of the pre-install hook pods, and one more if no such pod was found |
| HookOrder.GateSound | scripts/ci/charts-check.py:285-327 | at install and at upgrade: with no complaint, and the account hooked under the name a hook of that phase, in every order of the phase an account of the name exists before the pod starts |
| HookOrder.SilentChart | scripts/ci/charts-check.py:285-333 | with no problem reported, the same for every pod that runs before either phase |
| HookOrder.ComplaintReal | scripts/ci/charts-check.py:285-327 | a complaint comes with an install order in which the pod starts before its account exists |
| HookOrder.SilenceRightIff | scripts/ci/charts-check.py:285-327 | when the gate is silent the account exists first in every order of the phase if and only if the account named is a hook of that phase |
| HookOrder.GateExact | scripts/ci/charts-check.py:285-327 | the account exists first in every order of the phase if and only if the gate is silent and the account is a hook of that phase |
| HookOrder.OtherPhaseSlipsThrough | scripts/ci/charts-check.py:285-327 | an account that is a hook of another phase is accepted although the pod may start before it |

## Left out

- Matching, scoring, blocking, parameter estimation and golden-record SQL: generated queries run by a database engine.
- Row order, timestamps and detail hashes of the reconcile plan: rows are sets, so only their contents are stated.
- Pruning events and the retirement of emptied entities that the command line adds after the plan: a run here prunes records but writes no further events for them.
- The derivation of `never` pairs from a tenant's constraints: they are a parameter of the stage.
- The incremental affected-set path of the design document: the command line runs in full mode.
- Reconcile.ReconcilePlan: the order of its rows and the hashes of event details are not modelled.
- EventStream.Chat.Dispatch: which data an event kind can read is a parameter, not derived from the JSON text.
- Try and launch budgets, backoff times, resource classes and the in-flight cap of the job executor: they only decide whether and when a move is made, and every such choice is allowed here.
- The in-process reporter of the older dispatcher, and the moment between archiving a restarted try and inserting its successor, which is one move here.
- Pods of other jobs of the same organisation: the launch guard of one job is stated over that job's tasks.
- Graph assembly other than the lake-writer check, and the probing of outputs by the server, which answers that all are present.
- React rendering, selection and bulk resolution, optimistic rollback of failed verdicts, saved views, mapping suggestions, the term-frequency checkbox, blocking rule add, update and remove, and prompt-token rules of survivorship: each would add only easy members.
- Lone surrogates in the chat stream, the cookies and the settings form: text there is Unicode scalar values.
- Byte decoding of the chat stream: chunks are already decoded text.
- Cookie attributes (age, path, secure): a cookie is its name and value.
- Splices at negative indices: the editors' controls never send one.
- Organisation membership and user lookup behind a session, and the remaining assertions of the chart check.
