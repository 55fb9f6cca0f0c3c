# Belief-style null-dereference check, modelled in Dafny

This project models the core of SonarJava's `NullDereferenceBeliefStyleCheck`.
The rule reports a comparison `x == null` when `x` has already been dereferenced
on every path that reaches the end of the enclosing basic block, and has not been
reassigned since. The core has three parts.

- **Gen/kill extraction** (`Extraction`, `Tracking.NullTracking.ProcessBlockElements`).
  It walks a block's elements front to back and keeps a running GEN and KILL
  set. An assignment to an identifier, or a local declaration, adds the symbol
  to KILL and removes it from GEN. A call `x.m()`, or a field access `x.f`,
  adds `x` to GEN (in the corrected step; see "## Findings"). The last event for a symbol decides whether it is in GEN.
- **Forward worklist solver** (`Dataflow`, `Tracking.NullTracking.ComputeIn`,
  `AnalyzeCfg`, `Analyse`). A block's IN is the intersection of the recorded OUT
  sets of its predecessors and of its own exception targets. Unrecorded blocks
  are skipped, and IN is ∅ when nothing is recorded. OUT = GEN ∪ (IN − KILL).
  The worklist starts with every block. A block whose OUT changes, or has no OUT
  yet, records the new OUT and appends its successors. `Tracking.Solve` states
  the same run as a recursive function, one `Tracking.Dequeue` at a time, and
  the in-place loop is proved to end in exactly its result.
- **Inspector** (`Inspector`). It reports `identifier == null`, with the null
  literal on the right, when the identifier's symbol is in the block's OUT.

The control-flow graph and the resolved symbols are inputs. A symbol is an
`int`. The graph is a sequence of blocks, and every edge list holds block
indices. `Scenarios` replays several methods of the rule's test input on small
hand-built graphs. Those graphs do not claim to match the real CFG builder's
block splitting.

Points where the code is easy to misread:

- The comment at line 163 says elements are processed bottom to top. The loop at
  line 164 goes forward, and so does the model.
- OUT values are not monotone: a block's IN jumps up from ∅ once its first
  contributor is recorded, so the model proves no monotonicity and no termination.
- Exception targets are read in the direction the code reads them. A block's own
  exception targets join its meet, as `Dataflow.OwnExceptionTargetBoundsIn` states.
- The one place where the code evidently differs from its intent is the field
  access case. It is listed under "## Findings".

## Model

Paths are relative to the repository root.

| member | source | states |
|---|---|---|
| `Extraction.Step` | java-checks/src/main/java/org/sonar/java/checks/NullDereferenceBeliefStyleCheck.java:164-210 | One element's effect, built from `ProcessAssignment` (lines 202-210), `ProcessPointerUse` (196-200), `ProcessMethodInvocation` (189-194) and `ProcessVariable` (184-187), stated against an independent per-element event description. KILL never shrinks. A kill event removes the symbol from GEN and adds it to KILL. A dereference through an identifier adds only to GEN. Every other element leaves both sets unchanged. |
| `Extraction.ExtractGenIsLastDeref` | java-checks/src/main/java/org/sonar/java/checks/NullDereferenceBeliefStyleCheck.java:162-210 | A symbol is in the block's GEN iff some element dereferences it and no later element reassigns or declares it: the last event wins. |
| `Extraction.ExtractKillIsKilled` | java-checks/src/main/java/org/sonar/java/checks/NullDereferenceBeliefStyleCheck.java:164-210 | A symbol is in the block's KILL iff some element of the block reassigns or declares it. |
| `Extraction.KillOnlyGrows` | java-checks/src/main/java/org/sonar/java/checks/NullDereferenceBeliefStyleCheck.java:202-210 | The KILL of any prefix of the block is contained in the KILL of the whole block. |
| `Extraction.DerefThenReassign` | java-checks/src/test/files/checks/NullDereferenceBeliefStyleCheck.java:40-45 | A dereference followed by a reassignment, with no later dereference, leaves the symbol out of GEN and in KILL. |
| `Extraction.ReassignThenDeref` | java-checks/src/test/files/checks/NullDereferenceBeliefStyleCheck.java:33-38 | A reassignment followed by a dereference, with no later kill, puts the symbol in GEN, and it stays in KILL. |
| `Extraction.FieldAccessDroppedAsWritten` | java-checks/src/main/java/org/sonar/java/checks/NullDereferenceBeliefStyleCheck.java:164-181 | `StepAsWritten` and `ExtractAsWritten` model the loop as written, where the member-select case hands the select itself to `ProcessPointerUse`. As written, a field access `p.f` leaves GEN empty. The corrected extraction gives GEN = {p}. |
| `Scenarios.FieldAccessThenCheck` | java-checks/src/main/java/org/sonar/java/checks/NullDereferenceBeliefStyleCheck.java:169-171 | For the entry block `s.f; s == null` with IN = ∅, the as-written extraction reports nothing, and the corrected one reports `s`. |
| `Extraction.AsWrittenAgreesWithoutFieldAccess` | java-checks/src/main/java/org/sonar/java/checks/NullDereferenceBeliefStyleCheck.java:164-182 | On a block with no member-select element, the as-written extraction and the corrected one give the same GEN and KILL. |
| `Tracking.NullTracking.ProcessBlockElements` | java-checks/src/main/java/org/sonar/java/checks/NullDereferenceBeliefStyleCheck.java:162-182 | The in-place loop over the elements produces exactly the GEN and KILL of the front-to-back fold `Extract`. |
| `Dataflow.Transfer` | java-checks/src/main/java/org/sonar/java/checks/NullDereferenceBeliefStyleCheck.java:150-152 | OUT contains GEN and every non-killed symbol of IN. OUT holds nothing outside GEN ∪ IN. OUT meets KILL only inside GEN. Together these fix OUT as GEN ∪ (IN − KILL). |
| `Dataflow.MeetIsIntersection` | java-checks/src/main/java/org/sonar/java/checks/NullDereferenceBeliefStyleCheck.java:140-148 | The fold from the first set is the intersection of all the sets, and ∅ when there are none. |
| `Dataflow.RecordedHoldsRecordedOuts` | java-checks/src/main/java/org/sonar/java/checks/NullDereferenceBeliefStyleCheck.java:137 | The collected list holds exactly the OUT sets of the listed blocks that have one; unrecorded blocks are skipped. |
| `Dataflow.RecordedEmpty` | java-checks/src/main/java/org/sonar/java/checks/NullDereferenceBeliefStyleCheck.java:137-140 | The collected list is empty iff none of the listed blocks has a recorded OUT. |
| `Dataflow.InIsMeetOfRecorded` | java-checks/src/main/java/org/sonar/java/checks/NullDereferenceBeliefStyleCheck.java:137-148 | A symbol is in IN iff some predecessor or exception target has a recorded OUT and every such recorded OUT contains the symbol. |
| `Dataflow.RecordedFrame` | java-checks/src/main/java/org/sonar/java/checks/NullDereferenceBeliefStyleCheck.java:137-138 | The collected list depends only on the OUT entries of the listed blocks. |
| `Dataflow.InFrame` | java-checks/src/main/java/org/sonar/java/checks/NullDereferenceBeliefStyleCheck.java:137-148 | IN depends only on the OUT entries of the block's predecessors and exception targets. |
| `Dataflow.NothingRecordedGivesGen` | java-checks/src/main/java/org/sonar/java/checks/NullDereferenceBeliefStyleCheck.java:146-152 | With no recorded contributor, as for an entry block, IN = ∅ and OUT = GEN. |
| `Dataflow.ReassigningBranchBlocksMerge` | java-checks/src/main/java/org/sonar/java/checks/NullDereferenceBeliefStyleCheck.java:140-145 | If a recorded incoming OUT comes from a block that kills `s` and does not generate it, then `s` is not in the merge block's IN. |
| `Dataflow.SurvivesWhenInEveryIncoming` | java-checks/src/main/java/org/sonar/java/checks/NullDereferenceBeliefStyleCheck.java:140-145 | A symbol in every recorded incoming OUT, when at least one is recorded, is in IN. |
| `Dataflow.OwnExceptionTargetBoundsIn` | java-checks/src/main/java/org/sonar/java/checks/NullDereferenceBeliefStyleCheck.java:138 | A block's own recorded exception targets bound its IN, exactly like predecessors. |
| `Tracking.NullTracking.constructor` | java-checks/src/main/java/org/sonar/java/checks/NullDereferenceBeliefStyleCheck.java:90-96 | The tracker holds the given graph and starts with no recorded OUT for any block. |
| `Tracking.NullTracking.GetOut` | java-checks/src/main/java/org/sonar/java/checks/NullDereferenceBeliefStyleCheck.java:98-100 | Returns a value exactly when the block has a recorded OUT, and then that OUT. |
| `Tracking.NullTracking.ComputeIn` | java-checks/src/main/java/org/sonar/java/checks/NullDereferenceBeliefStyleCheck.java:134-148 | The collecting and intersecting loops produce exactly IN: the meet of the recorded OUT sets of predecessors, then exception targets. |
| `Tracking.StableAfterSkip` | java-checks/src/main/java/org/sonar/java/checks/NullDereferenceBeliefStyleCheck.java:154-156 | Skipping a block whose recomputed OUT equals its recorded one keeps solved every block outside the remaining worklist that is a successor of every block it reads. |
| `Tracking.StableAfterRecord` | java-checks/src/main/java/org/sonar/java/checks/NullDereferenceBeliefStyleCheck.java:157-158 | Recording a new OUT and appending the successors keeps solved every block outside the worklist that is a successor of every block it reads. |
| `Tracking.ProgressAfterSkip` | java-checks/src/main/java/org/sonar/java/checks/NullDereferenceBeliefStyleCheck.java:154-156 | Dequeuing a block whose recomputed OUT equals its recorded one keeps the solver's invariant: recorded blocks stay recorded and shaped, every block is recorded or queued, closed blocks outside the worklist stay solved, and a run begun on a solution has changed nothing. |
| `Tracking.ProgressAfterRecord` | java-checks/src/main/java/org/sonar/java/checks/NullDereferenceBeliefStyleCheck.java:151-158 | Recording a changed OUT and appending the block's successors keeps the same invariant. |
| `Tracking.ProgressAfterDequeue` | java-checks/src/main/java/org/sonar/java/checks/NullDereferenceBeliefStyleCheck.java:131-158 | One dequeue, whichever branch it takes, keeps that invariant. |
| `Tracking.SolveSkipStep` | java-checks/src/main/java/org/sonar/java/checks/NullDereferenceBeliefStyleCheck.java:154-156 | A run that dequeues a block whose recomputed OUT equals its recorded one continues with the same OUT map and the rest of the worklist. |
| `Tracking.SolveRecordStep` | java-checks/src/main/java/org/sonar/java/checks/NullDereferenceBeliefStyleCheck.java:150-158 | A run that dequeues a block whose OUT changes, or has none, continues with GEN ∪ (IN − KILL) recorded for it and its successors appended to the rest of the worklist. |
| `Tracking.SolveKeepsProgress` | java-checks/src/main/java/org/sonar/java/checks/NullDereferenceBeliefStyleCheck.java:131-159 | From any state satisfying the invariant, the rest of the run keeps recorded blocks and their shape; if it converges, every block is recorded and every closed block is solved; and from a solution with fuel for the whole queue it ends on that solution. |
| `Tracking.SolveProperties` | java-checks/src/main/java/org/sonar/java/checks/NullDereferenceBeliefStyleCheck.java:128-160 | The same guarantees for a run that starts with every block queued: on convergence a graph whose blocks are all closed is solved, and a run started on a solution with one unit of fuel per block converges at once and changes nothing. |
| `Tracking.SolveFromFixedPoint` | java-checks/src/main/java/org/sonar/java/checks/NullDereferenceBeliefStyleCheck.java:131-156 | From a solution, with at least one unit of fuel per queued block, every dequeue is skipped and the run converges on its start. |
| `Tracking.NullTracking.AnalyzeCfg` | java-checks/src/main/java/org/sonar/java/checks/NullDereferenceBeliefStyleCheck.java:128-160 | The in-place loop ends in exactly the OUT map and convergence flag of the run `Solve` from the old OUT map with every block queued, so which solution it reaches is determined. Recorded blocks stay recorded. Every recorded OUT contains GEN and meets KILL only inside GEN. On an empty worklist every block has a recorded OUT, and every block that is a successor of each block it reads solves its equation; so when that holds for all blocks, the result is a solution. Started on a solution with enough fuel, it converges and changes nothing. |
| `Tracking.NullTracking.Analyse` | java-checks/src/main/java/org/sonar/java/checks/NullDereferenceBeliefStyleCheck.java:102-125 | Builds each block's GEN and KILL by extraction and runs the solver on a fresh object with nothing recorded. The resulting OUT map and flag are exactly those of `Solve` on the extracted GEN and KILL from the empty map. It passes on the solver's guarantees: on convergence, every block that is a successor of each block it reads solves its equation. |
| `Inspector.ProcessEqualTo` | java-checks/src/main/java/org/sonar/java/checks/NullDereferenceBeliefStyleCheck.java:81-88 | Reports iff the right operand is the null literal, the left is an identifier, and its symbol is believed non-null. The reported symbol is the left identifier's. |
| `Inspector.CheckElement` | java-checks/src/main/java/org/sonar/java/checks/NullDereferenceBeliefStyleCheck.java:75-79 | Reports exactly the elements `s == null` with `s` in OUT. |
| `Inspector.MirroredComparisonNeverReported` | java-checks/src/main/java/org/sonar/java/checks/NullDereferenceBeliefStyleCheck.java:82 | `null == s` is never reported. |
| `Inspector.ReportIssues` | java-checks/src/main/java/org/sonar/java/checks/NullDereferenceBeliefStyleCheck.java:70-72 | With every block recorded, the collected issues are exactly the positions of every block whose element the inspector reports against that block's OUT. They come in block order and, within a block, in element order, so none is listed twice. Nothing in the analysis changes. |
| `Inspector.KillDominanceNoReport` | java-checks/src/main/java/org/sonar/java/checks/NullDereferenceBeliefStyleCheck.java:150-152 | If a symbol's last touch in a block is a reassignment or declaration, `s == null` is not reported at that block, whatever IN is. |
| `Inspector.LastDerefAlwaysReported` | java-checks/src/main/java/org/sonar/java/checks/NullDereferenceBeliefStyleCheck.java:150-152 | If a symbol's last touch in a block is a dereference, `s == null` is reported at that block, whatever IN is. |
| `Inspector.UntouchedFollowsIn` | java-checks/src/main/java/org/sonar/java/checks/NullDereferenceBeliefStyleCheck.java:150-152 | For a symbol the block never touches, `s == null` is reported iff the symbol is in IN. |
| `Scenarios.AssignThenDerefReported` | java-checks/src/test/files/checks/NullDereferenceBeliefStyleCheck.java:33-38 | `p = ...; p.toString(); p == null` in one block is reported for any IN. |
| `Scenarios.DerefThenAssignNotReported` | java-checks/src/test/files/checks/NullDereferenceBeliefStyleCheck.java:40-45 | `p.toString(); p = ...; p == null` in one block is never reported. |
| `Scenarios.ShadowingDeclarationNotReported` | java-checks/src/test/files/checks/NullDereferenceBeliefStyleCheck.java:124-129 | Dereferencing an outer variable and then comparing a new declaration with the same name is never reported. |
| `Scenarios.StraightLineReported` | java-checks/src/test/files/checks/NullDereferenceBeliefStyleCheck.java:19-23 | In a solved entry block `p.toString(); p == null`, the comparison is reported. |
| `Scenarios.BranchMergeNotReported` | java-checks/src/test/files/checks/NullDereferenceBeliefStyleCheck.java:19-31 | Once the branch that reassigns `p` is recorded, the solved merge block's `p == null` is not reported. |
| `Scenarios.LoopBeliefIsFixedPoint` | java-checks/src/test/files/checks/NullDereferenceBeliefStyleCheck.java:67-72 | With `p` dereferenced before a loop, believing `p` at every block solves the loop's equations. That graph is closed, and the check inside the loop body is reported. |
| `Scenarios.LoopRun` | java-checks/src/test/files/checks/NullDereferenceBeliefStyleCheck.java:67-72 | On that loop, the solver started with nothing recorded records {p} for blocks 0, 1, 2 and 3 in turn, then skips the four re-enqueued blocks. With at least eight units of fuel it converges on `p` believed at every block, and not on the other solution where only block 0 believes `p`. |

## Left out

- CFG construction, symbol resolution and the file scanner (`java-squid/src/main/java/org/sonar/java/ast/AstScanner.java`) are inputs or plumbing, not part of this model.
- Rule plumbing is left out: rule registration, `nodesToVisit`, the `hasSemantic` and empty-body guards (lines 52-65), and `reportIssue` with its message. A report is returned as an `Issue` (block, element index, symbol).
- The copy into immutable sets (lines 119-122) and Guava's set views (lines 143, 152) are plain Dafny `set` values.
- Edge sets are sequences of block indices. Successors are appended in sequence order, where the source iterates a set in an unspecified order.
- Tracking.NullTracking.AnalyzeCfg: processes at most `fuel` blocks and reports whether the worklist ran empty. Termination of the unbounded loop is not proved, because OUT sequences are not monotone.
- Tracking.NullTracking.AnalyzeCfg: on convergence, a solved equation is proved only for a block that is a successor of every block it reads. A block also reads the OUT of its own exception targets, but a changed OUT re-enqueues only the changed block's successors, so a block reading an exception target that does not list it as a successor may be left with a stale IN.
- Tracking.NullTracking.Analyse: inherits the fuel bound and the per-block solution from `AnalyzeCfg`.
- Inspector.ReportIssues: requires every block to have a recorded OUT. The source reads a block's OUT only at line 84, so a missing OUT fails there only for a block holding an `identifier == null` element; a converged `Analyse` guarantees there is none.

## Findings

| source | as written | input that shows it | evidently intended | confidence | as-written member | corrected member |
|---|---|---|---|---|---|---|
| java-checks/src/main/java/org/sonar/java/checks/NullDereferenceBeliefStyleCheck.java:169-171 | The member-select case hands the select element itself to `processPointerUse`. Its identifier test (line 197) never holds for a member select, so a field access never adds to GEN. | An entry block `[p.f, p == null]`: GEN = ∅, OUT = ∅, nothing reported. | Add the select's receiver, as the method-invocation case does (lines 189-193): GEN = {p}, OUT = {p}, the comparison is reported. | medium; not executed | `Scenarios.FieldAccessThenCheck` | `Extraction.ExtractGenIsLastDeref` |

The corrected step (`Extraction.Step`) is the one the rest of the model uses.
`Extraction.AsWrittenAgreesWithoutFieldAccess` shows that the two versions agree
on every block without a field access. Every dereference in the rule's test input is a method call.
