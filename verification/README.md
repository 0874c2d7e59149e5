# The kernel's decision logic, modelled and verified

The kernel decides things: whether imports are cyclic, whether a programme's claims form a valid
graph, which strategy a registered comparison supports, whether a worker call may be charged and
launched, whether a merge may be attempted, whether a measured difference is significant, which
bytes of a change have been observed. This project models that deterministic code in Dafny and
proves what each part is relied on for. Input and output appear as data: a clock reading, a
platform reply, a worker's answer or a crash is a parameter that may take any value.

| file | component |
|---|---|
| `Graphs.dfy`, `Wrappers.dfy` | paths, reachability and cycles, shared by the graph algorithms; optional values and blank text, shared by all |
| `ImportCycles.dfy` | the recursive strongly-connected-component counter |
| `AcyclicCheck.dfy` | the iterative three-colour search that refuses dependency cycles |
| `Claims.dfy`, `ClaimBinding.dfy`, `ClaimStatus.dfy` | claim sets: validation, compilation from a programme and a policy, and the recursive status query |
| `ExplorationRecords.dfy`, `ExplorationPolicy.dfy`, `Exploration.dfy`, `ExplorationInvariant.dfy`, `ExplorationSafety.dfy` | the exploration event log, the comparison of strategies, the guarded transitions, and what every run keeps |
| `Budget.dfy`, `WorkerProtocol.dfy` | the spending ledger, and the reserve / start / launch / observe protocol over an unreliable network |
| `SignTest.dfy` | the exact paired sign test and the assessment built on it |
| `Intervals.dfy`, `Coverage.dfy`, `ChangeMap.dfy` | byte-interval algebra, coverage accounting, and span relocation across a diff |
| `EffectBroker.dfy` | the broker's journal around one remote effect |
| `IntentHistory.dfy` | the intent store and the independent explainer of the same log |
| `Calibration.dfy`, `Cohorts.dfy` | the strict join of outcomes to forecasts, and evaluation cohorts |
| `FeedbackLab.dfy` | paired check-and-repair experiments |

Conventions. A digest (SHA-256 over canonical JSON) is the digested record itself, so equal
digests mean equal records. A Python exception or refusal is a constructor of a result type. Code
that updates state is a class or a method with loops, proved equal to a specification function;
the properties are then lemmas about that function. Where the original sorts before it visits,
the model visits in any order, so the results hold for the sorted order too.

Where code and documentation disagree, or where a natural expectation fails, the model follows
the code, exhibits an input that shows it, and states exactly when the expectation holds:

- A validated claim set can contain a requirement named as its own support, and its status query
  then takes the `dependency-cycle` branch (`ClaimStatus.ValidatedCycleExists`). The branch is
  dead exactly when requirement support is acyclic (`ClaimStatus.CycleBranchDeadIff`), which every
  compiled set satisfies (`ClaimStatus.CompiledNeverMeetsCycle`).
- The broker's documentation says an uncertain outcome is never replayed. The gate reads only the
  latest journal line, so a refusal recorded in between hides it: of three identical requests the
  second is refused because the first is uncertain, and the third attempts again
  (`EffectBroker.UncertainIsHidden`). The promise holds exactly when the grant allows at most one
  use, which is the default policy, or can never attempt anything (`EffectBroker.UncertainIsFinalIff`).
- The journal's documentation says an identical request that was observed returns its observation
  without executing. It does exactly when the grant's last line is such a success
  (`EffectBroker.SuccessAnsweredIff`). A refusal recorded since hides it: the identical request is
  then refused on a single-use grant (`EffectBroker.SuccessHiddenIsRefused`) and executed again on a
  grant with a second use (`EffectBroker.SuccessHiddenIsRepeated`). It is never executed again
  exactly when the grant allows at most one use or can never attempt anything
  (`EffectBroker.SuccessIsFinalIff`).
- The calibration join is said to refuse a tampered outcome that borrows a forecast. It looks a
  forecast up by identity and does not compare its subject, so an altered outcome naming another
  subject's forecast is scored (`Calibration.BorrowedForecastIsJoined`). Every joined forecast is
  its row's own exactly when no outcome that is the first of its key names a forecast then in force
  for another candidate or criterion (`Calibration.BorrowedIff`); it is enough that every outcome
  names its own subject's (`Calibration.OwnNamesJoinOwn`), and every log the transitions build meets
  that (`Calibration.BuiltJoinsOwn`).
- `_subtract` is set difference only over a canonical second list, which is what its callers pass;
  over an arbitrary list it still contains the difference and stays inside the first list.

## Model

| member | source | states |
|---|---|---|
| Graphs.CycleIffReturningEdge | factory_kernel/claims.py:222-251 | a graph has a directed cycle exactly when some edge can be travelled back |
| ImportCycles.Cycles | factory_kernel/experiments.py:201-235 | for every finite directed graph the count is exactly the number of mutual-reachability classes with several members or a self edge, and it is zero exactly when the graph is acyclic, whatever order nodes and successors are taken in |
| ImportCycles.CycleCounter.Enter | factory_kernel/experiments.py:211-216 | numbers and stacks a new node without disturbing any open one, and leaves the search in its scanning state |
| ImportCycles.CycleCounter.Visit | factory_kernel/experiments.py:210-230 | a visit terminates, finishes or stacks everything it met, keeps all earlier numbers, and leaves a low link that is both attained and a lower bound |
| ImportCycles.CycleCounter.PopComponent | factory_kernel/experiments.py:221-230 | pops exactly the nodes above the root, restores the stack as it was before the root, and counts the component when it is cyclic |
| ImportCycles.PushStarts | factory_kernel/experiments.py:211-216 | entering a node establishes the scanning invariant |
| ImportCycles.ScanFinished | factory_kernel/experiments.py:217-222 | an edge to a finished node may be ignored |
| ImportCycles.ScanStacked | factory_kernel/experiments.py:220-222 | an edge to a stacked node lowers the low link to that node's number and keeps the invariant |
| ImportCycles.ScanVisited | factory_kernel/experiments.py:217-220 | a successor visited on the way passes its low link up and keeps the invariant |
| ImportCycles.CloseKeeps | factory_kernel/experiments.py:221-230 | a node whose low link is below its own number stays stacked and anchored to an older open node |
| ImportCycles.ClosePops | factory_kernel/experiments.py:221-230 | a node whose low link is its own number finishes exactly its class, disjoint from all classes finished before |
| ImportCycles.TopIsClass | factory_kernel/experiments.py:221-230 | what lies above such a root on the stack is exactly its mutual-reachability class |
| ImportCycles.CountClass | factory_kernel/experiments.py:228-230 | a newly finished class raises the number of cyclic classes by one exactly when it is cyclic |
| ImportCycles.CyclicByRoot | factory_kernel/experiments.py:228-229 | a class is cyclic exactly when it has several members or its root has a self edge |
| ImportCycles.NoClassesIffAcyclic | factory_kernel/experiments.py:201-235 | there is no cyclic class exactly when the graph has no directed cycle |
| ImportCycles.NothingOpen | factory_kernel/experiments.py:232-235 | between top-level visits nothing is stacked and what was visited is closed under successors |
| AcyclicCheck.CheckAcyclic | factory_kernel/claims.py:222-251 | always terminates; accepts exactly the graphs whose restriction to their own keys is acyclic; otherwise names distinct nodes that form a directed cycle in order |
| AcyclicCheck.Expand | factory_kernel/claims.py:233-252 | one pass over the top iterator either meets a grey child, and then the stack from it is a cycle, or moves on with stack, path and colours in agreement |
| AcyclicCheck.Rooted | factory_kernel/claims.py:230-232 | starting from a white root establishes that the stack is the path's nodes and exactly the grey ones |
| AcyclicCheck.Descended | factory_kernel/claims.py:242-247 | descending into a white child keeps the grey nodes in one chain of edges |
| AcyclicCheck.Blackened | factory_kernel/claims.py:248-251 | a node with no child left may turn black: all it reaches within the keys is black already |
| AcyclicCheck.GreyClosesCycle | factory_kernel/claims.py:239-241 | a grey child closes a directed cycle from its place in the stack |
| AcyclicCheck.AllBlackIsAcyclic | factory_kernel/claims.py:222-251 | when everything is black and nothing is open the graph has no cycle |
| AcyclicCheck.RefusalIsCyclic | factory_kernel/claims.py:239-241 | a refusal is never given for an acyclic graph |
| Claims.ByKeyOfDistinct | factory_kernel/claims.py:100-101 | with distinct keys the view by key loses no claim |
| Claims.Validate | factory_kernel/claims.py:339-365 | accepts exactly the claim sets with distinct keys, known dependencies and edge ends, the right authority profiles, acyclic dependencies and a supported requirement each |
| ClaimBinding.CompileRequirements | factory_kernel/claims.py:151-183 | accepts exactly distinct acceptance ids and then yields one requirement claim for each |
| ClaimBinding.CheckAssignment | factory_kernel/claims.py:264-282 | passes exactly when every approved criterion is owned by exactly one item, items own something, and blockers are known |
| ClaimBinding.ClaimCriteria | factory_kernel/claims.py:266-279 | one item is refused only for a fault of its own or an earlier owner of its criterion, and otherwise becomes the owner of exactly its criteria |
| ClaimBinding.AllClaimsDistinct | factory_kernel/claims.py:292-321 | with distinct policy ids no two compiled claims share a key |
| ClaimBinding.RepeatedIdRepeatsKey | factory_kernel/claims.py:292-321 | a repeated policy id always gives two obligations one key |
| ClaimBinding.ClaimShape | factory_kernel/claims.py:310-320 | what each compiled claim depends on, by where it came from |
| ClaimBinding.StepKinds | factory_kernel/claims.py:310-315 | a dependency step of an obligation stays on its item along the policy or moves to a blocking item |
| ClaimBinding.PathProfiles | factory_kernel/claims.py:310-315 | a walk that returns to its item never left it and follows the policy alone |
| ClaimBinding.PolicyAcyclicThenGraph | factory_kernel/claims.py:283-336 | acyclic items and acyclic policy make the whole items-by-policy obligation graph acyclic |
| ClaimBinding.GraphAcyclicThenPolicy | factory_kernel/claims.py:283-336 | conversely, with any item at all, an acyclic obligation graph needs an acyclic policy |
| ClaimBinding.BuiltCovered | factory_kernel/claims.py:322-323 | every requirement of a compiled set has a supporting obligation |
| ClaimBinding.PassesAreAllEdges | factory_kernel/claims.py:303-332 | the two edge passes produce exactly the edges of every obligation |
| ClaimBinding.ObligationPass | factory_kernel/claims.py:303-326 | the obligation loop refuses exactly an unknown policy requirement and otherwise produces every obligation with its own edges |
| ClaimBinding.CompiledSetIsValid | factory_kernel/claims.py:333-336 | a set compiled from admissible inputs is valid exactly when the policy is acyclic with distinct ids (or there are no items) |
| ClaimBinding.Bind | factory_kernel/claims.py:254-336 | from compiled requirements, accepts exactly the admissible inputs with an ordered policy, and whatever it returns is a valid claim set |
| ClaimBinding.LoadedIsOrdered | factory_kernel/spine.py:51-105 | every policy the loader accepts is acyclic, with distinct ids and known requirements, so it never makes compilation fail |
| ClaimStatus.EstablishedIff | factory_kernel/claims.py:437-465 | on any graph a claim is established exactly when everything it stands on has a passing current latest attestation and no walk down its support returns |
| ClaimStatus.ObligationEstablished | factory_kernel/claims.py:437-458 | on a validated set an obligation is established exactly when it and every obligation reachable through its dependencies has a latest attestation that passes and is current |
| ClaimStatus.RequirementEstablished | factory_kernel/claims.py:459-464 | on a validated set a requirement is established exactly when everything its support reaches is a requirement or an obligation with a passing current latest attestation, and no chain of requirements under it returns |
| ClaimStatus.ObligatedRequirementEstablished | factory_kernel/claims.py:459-464 | where its support is obligations alone, that is: exactly when all of them and all they depend on have one |
| ClaimStatus.MeetsCycleIff | factory_kernel/claims.py:440-441 | the query takes the cycle branch from a claim exactly when some walk of its calls returns |
| ClaimStatus.CycleBranchDeadIff | factory_kernel/claims.py:420-481 | on a validated set the cycle branch is dead exactly when no chain of requirements supports itself |
| ClaimStatus.ValidatedCycleExists | factory_kernel/claims.py:339-365 | a concrete validated set whose query takes the cycle branch |
| ClaimStatus.CompiledSupport | factory_kernel/claims.py:322-323 | in a compiled set every supporting edge ends at an obligation |
| ClaimStatus.CompiledNeverMeetsCycle | factory_kernel/claims.py:440-441 | so requirement support is acyclic there and no query from any claim takes the cycle branch |
| ClaimStatus.LatestIsLast | factory_kernel/claims.py:430-433 | the attestation consulted for a claim is the last one given for it |
| ClaimStatus.Status | factory_kernel/claims.py:420-481 | every claim of the set gets exactly one row, with its exploration status and the standing the recursive query gives it |
| ExplorationRecords.AffectedClaims | factory_kernel/exploration_records.py:128-134 | the growing-set loop terminates in the dependency closure |
| ExplorationRecords.AffectedIsClosure | factory_kernel/exploration_records.py:128-134 | a claim is affected exactly when it is reachable along dependents from a changed one |
| ExplorationRecords.AffectedIsLeast | factory_kernel/exploration_records.py:128-134 | the affected set is the least set holding the changed claims and closed under dependents |
| ExplorationRecords.AffectedUnion | factory_kernel/exploration_records.py:128-134 | closure distributes over union, so invalidating claims one by one or together affects the same |
| ExplorationRecords.InvalidateRecommendations | factory_kernel/exploration_records.py:121-125 | exactly the sessions whose latest recommendation rests on an affected claim change status, and to the right one |
| ExplorationRecords.InvalidateEach | factory_kernel/exploration_records.py:92-109 | the claim loop invalidates each named claim and reaches every recommendation resting on any of them |
| ExplorationRecords.ApplyReaches | factory_kernel/exploration_records.py:37-117 | one event reaches other sessions only by demoting them, loses no session, claim or budget, and changes no limit, refunds nothing and forgets no doubt in a budget |
| ExplorationRecords.Project | factory_kernel/exploration_records.py:30-118 | the loop over the log computes the fold, and fails exactly where a lookup of the original would |
| ExplorationPolicy.FillValues | factory_kernel/exploration_policy.py:123-147 | a candidate's values: its current predictions, widened when stale, overwritten by this round's measurements in order |
| ExplorationPolicy.FillRows | factory_kernel/exploration_policy.py:121-156 | one row per candidate, with rejection, ceiling conflicts and open uncertainties |
| ExplorationPolicy.WalkPriorities | factory_kernel/exploration_policy.py:166-173 | the walk with its breaks decides exactly: a strictly separated priority after only pinned equal ones |
| ExplorationPolicy.Separates | factory_kernel/exploration_policy.py:163-174 | the flag survives the loop exactly when every other viable candidate is distinguished |
| ExplorationPolicy.RunComparison | factory_kernel/exploration_policy.py:115-181 | the whole comparison in its loops computes the specified result |
| ExplorationPolicy.DistinguishedIsSmaller | factory_kernel/exploration_policy.py:166-173 | a distinguished rival is lexicographically larger for every choice of values inside the intervals |
| ExplorationPolicy.SufficientIsDominant | factory_kernel/exploration_policy.py:162-178 | sufficient support means: whatever values inside the intervals come true, the preferred candidate is strictly first in the registered order among the viable, meets every ceiling, and rests on nothing invalidated or challenged |
| ExplorationPolicy.OthersAreWorse | factory_kernel/exploration_policy.py:163-174 | every other viable candidate is strictly larger for all values in the intervals |
| ExplorationPolicy.PreferredUnderCeilings | factory_kernel/exploration_policy.py:149-152 | a sufficiently supported candidate is under every ceiling for all values in its intervals |
| ExplorationPolicy.PreferredIsClear | factory_kernel/exploration_policy.py:116-148 | the preferred candidate's claims avoid the dependency closure of everything invalidated |
| Exploration.ValidateClaims | factory_kernel/exploration_policy.py:50-69 | decides exactly the additions in which each claim is new and depends only on recorded claims of its scope and claims listed before it |
| Exploration.ValidateCandidates | factory_kernel/exploration_policy.py:70-98 | the candidate loop accepts exactly new ids, known claims, complete well-ordered predictions and a single baseline |
| Exploration.ValidateAddition | factory_kernel/exploration_policy.py:50-98 | both loops together decide exactly the admissible additions |
| ExplorationInvariant.AffectedGrows | factory_kernel/exploration.py:79-89 | adding claims leaves the closure over existing claims unchanged |
| ExplorationInvariant.SetClaimTaints | factory_kernel/exploration_records.py:79-83 | a status change taints exactly the closure of the newly invalidated claim: invalidation is absorbing |
| ExplorationSafety.TransitionFits | factory_kernel/exploration.py:37-324 | what each guarded transition establishes about the event it records, whatever scope and context it was decided under |
| ExplorationSafety.EventKeeps | factory_kernel/exploration_records.py:30-118 | an event that fits applies without a failing lookup and keeps the invariant of all sessions, claims and budgets |
| ExplorationSafety.TransitionKeeps | factory_kernel/exploration.py:37-324 | every permitted transition applies and keeps the invariant of all sessions, claims and budgets |
| ExplorationSafety.RecordedInv | factory_kernel/exploration.py:37-324 | so every reachable log projects and satisfies it |
| ExplorationSafety.RecommendedStandsClear | factory_kernel/exploration.py:219-282 | in every reachable state a recommended session's latest recommendation rests on no claim in the dependency closure of anything invalidated |
| ExplorationSafety.BudgetsHold | factory_kernel/exploration.py:121-218 | no reachable log overspends a shared budget in calls, dollars or probe units |
| ExplorationSafety.ClaimsOnlySettle | factory_kernel/exploration_records.py:45-109 | from any point of a reachable log to any later one claims keep their dependencies and scope and an invalidated claim stays invalidated |
| ExplorationSafety.AddClaimsOrdered | factory_kernel/exploration_policy.py:50-69 | such an addition to an acyclic set of recorded claims leaves it acyclic |
| ExplorationSafety.ClaimsStayOrdered | factory_kernel/exploration_records.py:40-118 | no reachable log holds a cycle of claims |
| ExplorationSafety.ExplorationLog.Append | factory_kernel/exploration_records.py:159-188 | replays the same command under its key while the guard holds, whatever the version; refuses another use of the key and a stale version; and only then records what the command decides on the history as projected, which stays a reachable one |
| ExplorationSafety.KeyIsSpent | factory_kernel/project_events.py:150-161 | once an event stands under a key no later append under it records another, and a replay returns that first event of the same command |
| Budget.Project | factory_kernel/execution_budget.py:45-90 | the in-place accumulation computes the fold and refuses exactly an invalid history |
| Budget.Ledger.Note | factory_kernel/project_events.py:120-173 | another service's event is recorded exactly under a new key within capacity |
| Budget.Ledger.Approve | factory_kernel/execution_budget.py:176-203 | an allowance is recorded once, for the approved scope, and never replaced |
| Budget.Ledger.Reserve | factory_kernel/execution_budget.py:205-247 | the whole new log of a reservation: source first, then replay, version, availability, scope, limit and attempt |
| Budget.Ledger.Start | factory_kernel/execution_budget.py:269-285 | the whole new log of a start |
| Budget.Ledger.Observe | factory_kernel/execution_budget.py:249-267 | the whole new log of an observation |
| Budget.HistorySound | factory_kernel/execution_budget.py:45-90 | in every reachable history the charge is the sum of all reservations and within the limit, calls are within theirs, and every reservation but the newest has a known report no larger than its charge |
| Budget.NothingRefunded | factory_kernel/execution_budget.py:205-267 | from any point to any later one, charges, reports and reservation order stay and the total never falls |
| Budget.DoubtIsFinal | factory_kernel/execution_budget.py:76-90 | once a report is unknown or over its charge no later reservation is ever recorded |
| Budget.ReserveFacts | factory_kernel/execution_budget.py:228-244 | a recorded reservation was validated against an available budget with room for it, and bears the requested amount and execution |
| Budget.RowWasReserved | factory_kernel/execution_budget.py:61-66 | every row stems from a reservation event at the version it carries |
| Budget.StartFollowsReserve | factory_kernel/execution_budget.py:269-285 | every start is recorded immediately after the reservation it consumes, for the same execution |
| Budget.StartIsOnce | factory_kernel/execution_budget.py:274-284 | a reservation is started at most once |
| WorkerProtocol.Exchange.Apply | factory_kernel/execution_exchange.py:121-169 | the exchange driving the ledger answers and records exactly as specified for every phase, stale snapshot and interleaving |
| WorkerProtocol.ServeGrows | factory_kernel/execution_exchange.py:121-169 | serving a request appends at most one event and answers only with a decision bound to that call and allowed in that phase |
| WorkerProtocol.StartOnceIsFirst | factory_kernel/execution_exchange.py:151-158 | `start-once` is answered only when the start was recorded by this very request and no start of that reservation existed before |
| WorkerProtocol.StepKeeps | factory_kernel/execution_client.py:49-93 | each step of the network, the clients, the exchange and other services, whatever events those may record, keeps the protocol invariant |
| WorkerProtocol.RunKeeps | factory_kernel/execution_client.py:49-93 | so every state of every run satisfies it |
| WorkerProtocol.LaunchedOnce | factory_kernel/execution_client.py:62-93 | under any loss, delay, duplication or reordering of messages and any client crash, no call identity launches the provider twice |
| WorkerProtocol.LaunchWasCharged | factory_kernel/execution_client.py:68-81 | whenever the provider has been launched the log already holds the call's charge for its own ceiling with its start directly after |
| WorkerProtocol.LaunchesWithinAllowance | factory_kernel/execution_budget.py:205-285 | in every state of every run launches number at most the approved calls and their summed ceilings are at most the approved limit |
| WorkerProtocol.OneLaunchUnresolved | factory_kernel/execution_budget.py:76-90 | of any two launched calls at least one already has a known report within its charge |
| WorkerProtocol.ReservationStays | factory_kernel/execution_budget.py:61-66 | a recorded reservation keeps its ceiling and execution for ever |
| WorkerProtocol.PartCostsNoMore | factory_kernel/execution_budget.py:65-66 | distinct reservations drawn from the log cost no more than all of it |
| SignTest.TailCounts | factory_kernel/evaluation_protocol.py:57-59 | the numerator is the number of sign vectors of that length with at least that many positives |
| SignTest.TailBounds | factory_kernel/evaluation_protocol.py:57-59 | it is positive and at most the denominator, and equal to it exactly when no pair improved |
| SignTest.SignTestIsExact | factory_kernel/evaluation_protocol.py:40-59 | the reported fraction is a probability over sign vectors, with ties and pairs accounted for |
| SignTest.SignTestPermutes | factory_kernel/evaluation_protocol.py:40-59 | the result does not depend on the order of the differences |
| SignTest.SignTestIgnoresTies | factory_kernel/evaluation_protocol.py:51-59 | a tie changes nothing but the reported tie count, wherever it stands |
| SignTest.LossToTie | factory_kernel/evaluation_protocol.py:57-62 | a losing pair becoming a tie never raises the p-value |
| SignTest.TieToWin | factory_kernel/evaluation_protocol.py:57-62 | a tie becoming a win never raises the p-value |
| SignTest.RaisePrefix | factory_kernel/evaluation_protocol.py:348-348 | raising differences one after another keeps significance at every step |
| SignTest.SortedRises | factory_kernel/evaluation_protocol.py:342-342 | sorting keeps a pointwise order: every order statistic rises with its data |
| SignTest.MedianRises | factory_kernel/evaluation_protocol.py:342-344 | the floored median is monotone |
| SignTest.AssessmentIsMonotone | factory_kernel/evaluation_protocol.py:323-359 | if every difference is at least what it was, through ties and sign changes alike, a supported candidate stays supported |
| SignTest.SupportedHasWin | factory_kernel/evaluation_protocol.py:348-356 | a supported candidate won at least one pair |
| SignTest.AssessmentPermutes | factory_kernel/evaluation_protocol.py:323-359 | the outcome does not depend on the order the units were run in |
| Intervals.Union | factory_kernel/code_subjects.py:475-484 | the canonical list of the same bytes, for any list of intervals |
| Intervals.Intersect | factory_kernel/code_subjects.py:491-498 | the canonical list of the common bytes, for any two lists |
| Intervals.Subtract | factory_kernel/code_subjects.py:501-513 | set difference over a canonical second list; over any list, between the difference and the first list |
| Intervals.SubtractOne | factory_kernel/code_subjects.py:503-512 | the cursor walk over one interval, likewise |
| Intervals.CanonicalUnique | factory_kernel/code_subjects.py:475-484 | two canonical lists of the same bytes are the same list |
| Intervals.MeasureCounts | factory_kernel/code_subjects.py:487-488 | measured on a canonical list, the sum of lengths is the number of bytes |
| Coverage.MeasureFile | factory_kernel/code_subjects.py:569-586 | a file's counts are the sizes of the byte sets they name, and the rest is the canonical list of unresolved bytes |
| Coverage.TraceCoverage | factory_kernel/code_subjects.py:541-594 | the loop produces exactly the specified report: totals, rows, unresolved spans and gaps |
| Coverage.FileConserves | factory_kernel/code_subjects.py:579-586 | in each file changed = observed + proposed only + unresolved, the three are disjoint, and the unioned change = changed + excluded |
| Coverage.ReportConserves | factory_kernel/code_subjects.py:587-594 | the same for every row and for the totals |
| Coverage.SameCoverSameReport | factory_kernel/code_subjects.py:548-582 | binding lists covering the same bytes give identical reports |
| Coverage.SameMembersSameCover | factory_kernel/code_subjects.py:548-555 | in particular reordered or duplicated lists |
| Coverage.MoreObservedExplainsMore | factory_kernel/code_subjects.py:579-582 | observing more never uncovers a byte |
| ChangeMap.LineOffsets | factory_kernel/code_subjects.py:406-410 | the running offsets are the byte lengths of the prefixes of the lines |
| ChangeMap.MapModified | factory_kernel/code_subjects.py:435-446 | the opcode loop collects exactly the specified blocks, hunks and insertion points |
| ChangeMap.MapFile | factory_kernel/code_subjects.py:421-446 | whether a path was added, deleted, kept or modified, its record accounts for every byte of both contents once: marked changed, or paired by a block with the very same bytes on the other side |
| ChangeMap.MapTiles | factory_kernel/code_subjects.py:435-446 | for any valid opcode list equal blocks and changed hunks tile both files: every byte once |
| ChangeMap.MapSpan | factory_kernel/code_subjects.py:381-399 | the two searches find the first containing block or meeting hunk |
| ChangeMap.MappedIsIdentical | factory_kernel/code_subjects.py:392-395 | a span reported as mapped has byte-identical content at its new place |
| ChangeMap.SpanClassified | factory_kernel/code_subjects.py:391-399 | a nonempty span in range is mapped exactly inside one equal block, changed exactly when it meets a hunk, and unresolved exactly when it only runs across a pure insertion |
| EffectBroker.LatestIsLast | factory_kernel/effect_broker.py:83-89 | the row consulted for a grant is the last one recorded for it |
| EffectBroker.Journal.Append | factory_kernel/effect_broker.py:75-81 | rows are only ever added at the end |
| EffectBroker.Journal.StateOf | factory_kernel/effect_broker.py:83-89 | the scan finds the latest row of the grant |
| EffectBroker.Journal.CountUses | factory_kernel/effect_broker.py:91-92 | the scan counts the grant's started rows |
| EffectBroker.Broker.CheckGate | factory_kernel/effect_broker.py:153-198 | every failing gate is listed, and the subject is read only when the grant itself passed |
| EffectBroker.Broker.MergeExact | factory_kernel/effect_broker.py:269-312 | the order of journal lines and remote calls, and the result, for every remote outcome and crash point |
| EffectBroker.Broker.PublishBranch | factory_kernel/effect_broker.py:211-267 | the same for publishing |
| EffectBroker.Broker.OpenRequest | factory_kernel/effect_broker.py:242-267 | the same for opening the pull request after the push |
| EffectBroker.Broker.LookOnly | factory_kernel/effect_broker.py:202-209 | the same for the read-only observation, which also consumes a use |
| EffectBroker.GatePasses | factory_kernel/capabilities.py:244-270 | a passed gate means a use is left, the operation is the granted one and nothing is pending |
| EffectBroker.EveryTraceIsOrderly | factory_kernel/effect_broker.py:211-312 | after any sequence of broker calls and crashes every remote call directly follows the durable line that consumed its grant, and no outcome is recorded for anything that did not happen |
| EffectBroker.AttemptsArePaid | factory_kernel/effect_broker.py:211-312 | what a broker call attempts it pays for with a start of its own; one left by a crash is never used later |
| EffectBroker.AttemptsWithinUses | factory_kernel/effect_broker.py:153-198 | over every sequence of broker calls remote attempts for a grant never exceed its started rows, nor those its uses |
| EffectBroker.SpentRefuses | factory_kernel/effect_broker.py:153-198 | with no use left a call returns the success the journal recorded or refuses, without touching the remote |
| EffectBroker.SpentForGood | factory_kernel/effect_broker.py:153-198 | and no later sequence of calls ever attempts that grant again |
| EffectBroker.UncertainThenRefused | factory_kernel/effect_broker.py:166-168 | an attempt after an uncertain outcome of the same grant has a refusal between them and cost a second use |
| EffectBroker.UncertainIsHidden | factory_kernel/effect_broker.py:166-168 | every merge or publish grant with a second use attempts again after an uncertain outcome when the identical request is made three times |
| EffectBroker.UncertainIsFinalIff | factory_kernel/effect_broker.py:166-168 | for any grant an uncertain outcome is final over all runs exactly when it allows at most one use or can never attempt anything |
| EffectBroker.SuccessAnsweredIff | factory_kernel/effect_broker.py:215-218 | after an observed success, whatever the uses, an identical merge or publish is answered from the journal exactly when the last line of the grant is such a success, by that line's observation; on a single-use grant it is otherwise refused |
| EffectBroker.SuccessHiddenIsRefused | factory_kernel/effect_broker.py:273-279 | a run on every usable single-use grant in which the identical request after a success is refused |
| EffectBroker.SuccessHiddenIsRepeated | factory_kernel/effect_broker.py:273-279 | a run on every usable grant with a second use in which the identical request after a success is executed again |
| EffectBroker.SuccessIsFinalIff | factory_kernel/effect_broker.py:58-61 | for any grant an observed success is never executed again by an identical request, over all runs, exactly when it allows at most one use or can never attempt anything |
| IntentHistory.TakeSnapshot | factory_kernel/frontdoor_intent.py:176-197 | the loop over the log computes the store's view, and fails exactly where the original would raise |
| IntentHistory.ExplainHistory | factory_kernel/decision_history.py:25-71 | the explainer's loop yields its rows or refuses, as specified event by event |
| IntentHistory.IntentStore.Execute | factory_kernel/frontdoor_intent.py:204-262 | records exactly an appendable command, replays exactly the same command by the same actor under the same key, and otherwise changes nothing |
| IntentHistory.StepAgrees | factory_kernel/decision_history.py:51-68 | an accepted event leaves the store's snapshot and the explainer's variables describing the same history |
| IntentHistory.StepIff | factory_kernel/frontdoor_intent.py:217-248 | on agreeing readings the store accepts an event exactly when the explainer does and the event is well formed |
| IntentHistory.ReadersAgree | factory_kernel/decision_history.py:25-71 | the two separately written validators agree on every log: a history is buildable exactly when it is explained and each event is well formed where it stands |
| IntentHistory.ApprovalsStand | factory_kernel/frontdoor_intent.py:217-248 | the i-th approval of any buildable history has revision i under one specification id and names the latest proposal, free of open questions, made under the intent that was the latest at approval time |
| IntentHistory.BuiltIsWellTold | factory_kernel/decision_history.py:51-71 | the explanation of any buildable history ties each approval to its proposal, the proposal to its intent, and the approval to the one it supersedes |
| Calibration.ForecastIsCompared | factory_kernel/predictions.py:57-85 | a subject has a frozen forecast exactly when the comparison gives its candidate a predicted value for the criterion, and it is that value, stale exactly when inapplicable |
| Calibration.MatchMeasurements | factory_kernel/predictions.py:113-132 | the loop that records one outcome per measurement, matched to its own subject's forecast or to none |
| Calibration.JoinOutcomes | factory_kernel/calibration.py:147-208 | the nested loops compute the specified join, and fail exactly where a projection or session lookup would |
| Calibration.JoinObservation | factory_kernel/calibration.py:171-198 | the loop over one observation's outcomes |
| Calibration.JoinIsPrefixStable | factory_kernel/calibration.py:147-208 | the rows of a truncated log are a prefix of the rows of the full log; unjoined rows and duplicates only grow |
| Calibration.JoinConserves | factory_kernel/calibration.py:171-198 | every recorded outcome lands in exactly one of rows, unjoined rows and dropped duplicates, and one sample counts once |
| Calibration.JoinedWasInForce | factory_kernel/calibration.py:161-198 | every joined forecast was in force in the projection of exactly the events before its observation |
| Calibration.FaithfulJoinsAll | factory_kernel/calibration.py:186-198 | on a log whose outcomes were matched when recorded nothing is left unjoined and every joined forecast is of the row's own subject |
| Calibration.BuiltJoinsOwn | factory_kernel/exploration.py:185-214 | every log the transitions build is such a log: it projects, and each of its outcomes is joined, once, to its own subject's forecast in force at the time or to none |
| Calibration.BorrowedIff | factory_kernel/calibration.py:173-198 | on any log every joined forecast is its row's own subject's exactly when no outcome that is the first recorded under its key names a forecast then in force for another candidate or criterion |
| Calibration.OwnNamesJoinOwn | factory_kernel/calibration.py:173-198 | in particular when every outcome that names a forecast names its own subject's |
| Calibration.BorrowedForecastIsJoined | factory_kernel/calibration.py:186-198 | a concrete log in which one candidate's outcome is scored against another's forecast |
| Cohorts.ParseCohorts | factory_kernel/calibration.py:82-107 | accepted exactly when no two cohorts contest a project or a session, directly or through its project |
| Cohorts.CohortOf | factory_kernel/calibration.py:121-130 | in an accepted protocol the answer is the one cohort that takes the session, and none only when none does |
| Cohorts.OrderIsIrrelevant | factory_kernel/calibration.py:103-107 | the verdict does not depend on the order the cohorts are written in |
| FeedbackLab.SameJsonIff | factory_kernel/feedback_lab.py:69-79 | two values compare the same exactly when they are equal once every number is written one way |
| FeedbackLab.Compare | factory_kernel/feedback_lab.py:82-88 | complete observations are compared case by case and pass exactly when every case does |
| FeedbackLab.RunArm | factory_kernel/feedback_lab.py:102-178 | the round loop computes the specified outcome for any worker, sandbox, clock and cancellation |
| FeedbackLab.FinalChecksNeverLeak | factory_kernel/feedback_lab.py:91-178 | two tasks differing only in final checks, id, group or split draw identical prompts, caps, drafts, charges and costs from the same world |
| FeedbackLab.ArmWithinLimits | factory_kernel/feedback_lab.py:125-137 | reserved dollars and given turns never exceed the limits, and a full arm gives out exactly the turns and reserves exactly the dollars |
| FeedbackLab.EveryCallIsPaidBefore | factory_kernel/feedback_lab.py:125-137 | at every moment of an arm what the worker was given had been reserved, reservations are within the limit, and each call directly follows the reservation of just what it gives |
| FeedbackLab.CapsSum | factory_kernel/feedback_lab.py:129-129 | the caps of the first rounds sum to their shares plus the first of the turns left over |
| FeedbackLab.AcceptedMeansPassed | factory_kernel/feedback_lab.py:152-168 | an accepted arm's last draft was the last thing tried on the public checks and then on the final ones, and the sandbox's answers met every one of both |
| FeedbackLab.RunExperiment | factory_kernel/feedback_lab.py:181-191 | the arm loop with its halted flag computes the specified outcomes |
| FeedbackLab.HaltedForGood | factory_kernel/feedback_lab.py:184-191 | after a budget breach or unsafe cleanup no later arm calls a worker, reserves anything or is accepted |

## Left out

- `experiments.py`: `run_boundary_analysis`, `_layer_of`, `_prefix_matches` and the import resolvers: single-pass string checks around the cycle counter.
- `evaluation_protocol.py`: `screen_finite`, `record_exposure`, evaluator registration and the shape checks of freezing; the model keeps what freezing guarantees to the assessment.
- `claims.py`: `compile_exploratory_claims`, implementation bindings and the reason texts of a status row; a status row keeps kind, approval, exploration status and standing.
- ClaimStatus.Status: the source references of a row and the sorted texts of its reasons are left out; reasons are kept as a set.
- ClaimStatus.ObligatedRequirementEstablished: assumes the supporting edges end at obligations, which compiled sets guarantee (`CompiledSupport`); `RequirementEstablished` is the general statement.
- Python's recursion limit in `_cycles` and in the status query is not modelled: recursion is unbounded.
- Strings are sequences of characters; identifier and text syntax checks are kept only where a property needs them. White space is ASCII.
- Floats are exact reals, so a dollar share never rounds; `microusd` rounding is not modelled.
- `exploration.py`: `prepare_handoff`, leases, the runners themselves and the texts of claims and candidates; a runner's or a model's results arrive as data. Rejection rules, imported outcomes and adaptive-run rows are one event that changes nothing modelled.
- ExplorationPolicy.SufficientIsDominant: not an equivalence, because the comparison gives up when intervals only touch.
- Message authentication, freshness and shape checks of the exchange are the freedom of any request to be refused or any reply to be lost; replies cannot be forged and a nonce is never drawn twice. Role ceilings are part of what may be refused.
- `execution_budget.py`: the local `run` adapter and the observation of an opening; whether the opening was verified is a parameter of the approval. Of a programme's source read, its digest and scope are kept.
- ExplorationSafety.ExplorationLog.Append: a sent command is compared as one text; that the principal is the owner, and the byte bound on an event, are not modelled.
- Appends are atomic and crashes fall between them; file locks, fsync and byte capacities are not modelled.
- EffectBroker.AttemptsWithinUses: broker calls are taken one after another, as in the single process that owns the journal; uses are counted per grant identity, and a narrowed grant is another identity. Reason codes are kept, remote-state texts are not.
- `capabilities.py`: `authorize`, `narrow_grant` and rehydration; a grant arrives with its fields.
- IntentHistory.ReadersAgree: the projections of other services that the explanation also carries are not part of it; their events appear in the log but change neither reading.
- `difflib` is taken by contract: its opcodes tile both line lists and `equal` means equal lines. The Python tokenizer's classification of lines is an input.
- `calibration.py`: the metrics, reports, unmeasured candidates, failed observations and costs beside the join, and its bound on the number of events; a forecast keeps its subject, interval or judgment, context, source and round, and measured values are numbers.
- `feedback_lab.py`: emitted events, error texts and the summary totals; a draft's size is counted in characters, and the sandbox's own polling of cancellation is part of its answer.
