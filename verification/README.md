# Network Admission Fabric: a verified model

The admission fabric grants rates on network resources. It never grants what the
adjacent authorities (capacity, reservations, paths, policy) do not back, keeps an
account of every grant, journals what must survive a restart, and takes grants back,
newest first, when an authority moves. This project models that engine in Dafny and
proves what it promises.

The model has two halves. Pure functions say what every operation does to the state
of the engine (`Engine`, with `Ledger`, `History`, `Attempts`, `Evaluate`,
`Selection`, `Checks` and `Recovery` below it). Classes hold the same state in
mutable fields and are proved to move it exactly as those functions say
(`EngineObject.EngineCore`, `LedgerStore.AdmittedLoadLedger`,
`HistoryStore.DecisionHistory`, `HistoryStore.AttemptRegistry`,
`JournalStore.Journal`, `Authority.AuthorityVector`, `Bytes.ByteWriter`,
`Bytes.ByteReader`). The theorems are about runs: any sequence of operations, with
any pattern of journal failures, and across any number of crashes and restarts.

| layer | modules |
|---|---|
| arithmetic | `Checked` |
| snapshots and their indexes | `Snapshots` |
| accounts | `Ledger`, `LedgerStore` |
| history and attempts | `History`, `Attempts`, `HistoryStore` |
| evaluation | `Evaluate`, `Selection`, `Checks`, `Sizes`, `Hurdles`, `Routes`, `Eligibility` |
| the state machine and its object | `Engine`, `EngineObject` |
| what every operation keeps | `Invariants`, `Enforcement`, `Interrupted`, `Closure`, `CleanRuns`, `Frames` |
| every answer and every change of an operation | `Admissions`, `Revocations`, `Revalidations`, `Publications`, `Casualties`, `Housekeeping` |
| theorems over runs | `Closure`, `CleanRuns`, `PathRuns`, `Fencing`, `Staleness`, `Idempotence`, `Reconciling`, `Lineage` |
| durability | `Recovery`, `Restoration`, `Meaning`, `Compaction`, `Durability`, `Crash`, `Restart`, `Lifetimes`, `Collisions`, `Oversized`, `Reissue`, `Registry`, `Recoverable`, `Recall` |
| bytes | `Bytes`, `Records`, `Layout`, `RecordStreams`, `JournalFile`, `JournalStore`, `DurableStack`, `Encodable`, `CrashedFile` |
| authority digest | `Authority` |
| departures of the code from its intent | `Departures`, `Pathless`, `Answers`, the concrete runs of `Scenario`, `Episodes`, `Mishaps` and `Lapses`, and the rows marked so below |

How the environment enters: whether a journal append succeeds is a list of outcomes
in the state (an append takes full effect or none); a crash leaves the journal with
any content it had during the operation; the checksum, the request fingerprint and
the digest's mixing are arbitrary functions.

Vocabulary used in the table. *Consistent*: authorities valid, books balanced, history
indexed, every live grant backed by an admitting unreleased record that owns its audit
slot. *Listed*: a record that owns its audit slot; all do until a restart reuses a number. *Closed*: every
resource that carries load is known and its load is within usable minus headroom minus
obligations. *Allowance*: that difference, saturating. *Meaning* of a journal: the
grants and the policy recovery rebuilds from it.

## Model

| member | source | states |
|---|---|---|
| Checked.MulExact | include/naf/core/checked.hpp:26-43 | the four-partial multiplication gives hi * 2^64 + lo = a * b |
| Checked.DivModU128Portable | include/naf/core/checked.hpp:64-81 | the bit-serial division with wrapping shifts and carry succeeds exactly when the quotient fits, and is then exact |
| Checked.MulDivFloor | include/naf/core/checked.hpp:105-117 | floor(a * num / den), refused exactly when den is zero or the result does not fit |
| Checked.MulDivCeil | include/naf/core/checked.hpp:120-135 | the least value at or above a * num / den, refused exactly when it does not fit |
| Checked.SumLatch.Add | include/naf/core/checked.hpp:169-187 | the latched sum is exact until it would overflow, and stays latched after |
| Snapshots.FindBy | src/engine/engine.cpp:18-26 | binary search finds what a linear scan finds, or nothing when nothing is there |
| Snapshots.ValidateCapacity | src/model/state.cpp:48-83 | accepted exactly when well formed, strictly ordered, and silent where evidence is unknown |
| Snapshots.ValidateReservations | src/model/state.cpp:85-126 | accepted exactly when ordered and every resource's obligations fit 64 bits |
| Snapshots.ValidatePaths | src/model/state.cpp:128-160 | accepted exactly when ordered, with every traversal bounded and ordered |
| Snapshots.RebuildObligationIndex | src/engine/engine.cpp:102-112 | the index holds, per resource, the saturated sum and the positions of its obligations |
| Snapshots.IndexedTotalExact | src/engine/engine.cpp:114-117 | for a validated snapshot the indexed total is the exact sum over the list |
| Snapshots.ObligationReleasesWithin | src/engine/engine.cpp:119-130 | the indexed question agrees with the existential over the whole list |
| Evaluate.ComputeHeadroom | src/engine/engine.cpp:132-140 | headroom is min(usable, max(mandatory, floor(usable * permille / 1000), floor)) and never exceeds usable |
| Evaluate.WithinAllowance | src/engine/admission.cpp:577-620 | load within the saturating allowance means the plain sum fits usable, or is zero where the commitments alone do not |
| Evaluate.EvaluateCapacity | src/engine/admission.cpp:555-673 | the loop over targets and path computes the verdict and ceiling of the specification |
| Evaluate.CapacityVerdictExact | src/engine/admission.cpp:577-672 | Admit exactly when every target and the path can serve the minimum, and then the ceiling is the greatest rate within every limit |
| Selection.ChoosePath | src/engine/admission.cpp:392-549 | the loop over candidates computes the ranked choice |
| Selection.SelectionIsFirstUsable | src/engine/admission.cpp:411-548 | the choice is the first declared candidate able to carry the request; failing that, it is stale input exactly when some candidate lacks evidence, a capacity block on the first short candidate exactly when none does and some is short, and a path refusal exactly when every candidate failed as a path |
| Selection.ShortResourceNeverAdmits | src/engine/admission.cpp:831-856 | when the recorded failure is a short resource, the capacity stage cannot admit |
| Pathless.PathlessIffBlocked | src/engine/admission.cpp:537-544 | departure: a request that names candidates is granted without a path exactly when the selection was blocked for want of capacity |
| Pathless.BlockedGrantedIff | src/engine/admission.cpp:831-890 | such a blocked request is granted exactly when it passed the earlier stages, what blocked it is an exhausted path, every target can serve the minimum, and every target can serve the desired rate or degradation is allowed |
| Scenario.ExhaustedPathGranted | src/engine/admission.cpp:537-544 | departure: with a path required by policy and the only candidate exhausted, a concrete valid request is granted on path 0 |
| Checks.CheckExpectations | src/engine/admission.cpp:131-303 | the loops accept exactly when every stated authority is the current one |
| Checks.Targets | src/engine/admission.cpp:831-838 | targets are the declared bindings and the traversal, sorted, without repetition |
| Sizes.GrantBound | src/engine/admission.cpp:831-848 | a grant covers at most 512 resources more than the request declares |
| LedgerStore.AdmittedLoadLedger.Reserve | src/engine/ledger.cpp:11-82 | validates, adds, and on a path overflow rolls back, exactly as specified |
| LedgerStore.AdmittedLoadLedger.Release | src/engine/ledger.cpp:84-131 | removes everything a decision holds, or nothing |
| LedgerStore.AdmittedLoadLedger.SetRevalidationFlags | src/engine/ledger.cpp:182-194 | touches every entry's flag and nothing else |
| Ledger.ReserveConserves | src/engine/ledger.cpp:11-82 | accepted, refused or rolled back, every total stays the sum of live entries and the entry count stays their number |
| Ledger.RollbackExact | src/engine/ledger.cpp:44-75 | undoing the additions restores every total, and the stored table exactly when it held no zero |
| Ledger.ReleaseConserves | src/engine/ledger.cpp:84-124 | a release subtracts exactly what the decision held, balances, and cannot be repeated |
| Ledger.ReserveAnswers | src/engine/ledger.cpp:11-82 | which status a reservation meets, the first amount that cannot be added deciding, and that one refused before anything is added changes nothing |
| Ledger.ReleaseAnswers | src/engine/ledger.cpp:84-131 | exactly when a release is refused with each status, and that a refused one changes nothing |
| Ledger.ReleaseFailsIff | src/engine/ledger.cpp:89-106 | departure: with balanced books a release fails exactly for a zero-rate entry whose total has disappeared |
| Ledger.ReleasePathsIff | src/engine/ledger.cpp:60-120 | departure: path totals stay balanced exactly when the decision holds one resource or no path, or was charged the greatest amount, which saturates the refund |
| Ledger.ReserveThenRelease | src/engine/ledger.cpp:11-124 | reserve then release is the identity, on path totals exactly in that case |
| Departures.TwoResourcesRefundTwice | src/engine/ledger.cpp:107-119 | departure: a concrete grant on two resources over a path whose reserve and release leave nothing held and a wrapped path total |
| PathRuns.PathsOverRuns | src/engine/ledger.cpp:60-120 | over every run whose grants each meet that condition, with any journal failures, every path total is what the grants over the path were charged |
| Departures.ZeroRateStuck | src/engine/ledger.cpp:89-106 | departure: a concrete zero-rate grant that can no longer be released |
| Ledger.ReserveExactIff | src/engine/ledger.cpp:29-59 | departure: an accepted reservation leaves every total exact exactly when, for each resource, the old total and all the amounts naming it together fit 64 bits |
| Departures.RepeatedResourceWraps | src/engine/ledger.cpp:29-59 | departure: a concrete reservation naming a resource twice is accepted and wraps its total to zero |
| HistoryStore.DecisionHistory.Insert | src/engine/history.cpp:9-21 | record and audit slot, replacing an earlier slot of the same decision |
| HistoryStore.DecisionHistory.Trim | src/engine/history.cpp:23-46 | the resumed scan retires what the specification retires |
| HistoryStore.DecisionHistory.Update | src/engine/history.cpp:53-60 | replaces a record but not its audit number |
| HistoryStore.DecisionHistory.InAuditOrder | src/engine/history.cpp:62-71 | lists the indexed records by audit number |
| HistoryStore.AttemptRegistry.Record | src/engine/history.cpp:100-113 | overwrites an existing key, otherwise evicts until there is room |
| History.TrimKeeps | src/engine/history.cpp:23-46 | no held record is dropped, none altered, and no more than the bound asks for |
| History.CursorRefinesRescan | src/engine/history.cpp:23-46 | resuming at the cursor retires exactly what a scan of the whole window would |
| History.TrimComplete | src/engine/history.cpp:23-46 | after a trim the bound holds or every record still listed is held, and again only held records lie below the cursor |
| History.InsertAgain | src/engine/history.cpp:9-21 | a decision filed again gives up its old audit slot for the new one |
| History.TrimOldestFirst | src/engine/history.cpp:23-46 | of two unheld records at or above the cursor the older is retired first |
| Hurdles.FirstHurdleDecides | src/engine/admission.cpp:86-387 | of the conditions on readiness, expectations and policy, listed one by one over the snapshots and the request, the first that fails decides the outcome, for every request |
| Routes.RouteExact | src/engine/admission.cpp:392-549 | a request without candidates needs no path unless policy demands one; otherwise it takes its first candidate that is proven, up and has the rate, or else, where none is unproven, the first that is only short of rate; what it is told when there is no route |
| Eligibility.GrantedIff | src/engine/admission.cpp:777-905 | a request is granted exactly when it clears every condition and some route takes it and backs a rate it accepts; the grant is the largest such rate on that route |
| Eligibility.RefusedWithoutRoute | src/engine/admission.cpp:392-549 | the outcome of a request no route takes |
| Eligibility.RefusedOnRoute | src/engine/admission.cpp:555-673 | the outcome of a request its route cannot carry, decided by the lowest resource that lacks what it wants |
| Attempts.EvictDownSize | src/engine/history.cpp:102-107 | eviction leaves room and takes nothing when there is room |
| Registry.EvictExact | src/engine/history.cpp:102-107 | making room for one more keeps exactly the highest keys |
| Attempts.EvictsFromTheFront | src/engine/history.cpp:102-107 | everything evicted lies below everything kept, in key order |
| Attempts.EvictionFollowsAgeIff | src/engine/history.cpp:102-107 | departure: eviction retires the oldest attempts, whatever the bound, exactly when attempts were recorded in the order of their keys |
| Attempts.NewerAttemptDropped | src/engine/history.cpp:102-107 | departure: of attempts recorded at ticks 3 and 9 the third recording drops the newer |
| EngineObject.EngineCore.FinishRefusal | src/engine/engine.cpp:324-348 | refusal record, history, attempt, cache |
| EngineObject.EngineCore.FinishAdmission | src/engine/engine.cpp:350-398 | intent, reservation, commit, filing, compaction, with every failure path |
| EngineObject.EngineCore.Compact | src/engine/engine.cpp:1099-1165 | the rewritten journal: boot, policy, live grants as intent and commit, the rest as history, audit mark |
| EngineObject.EngineCore.Evaluate | src/engine/admission.cpp:777-905 | readiness, expectations, policy, path, capacity, grant, as Eligibility.GrantedIff and Hurdles.FirstHurdleDecides say in terms of the inputs alone |
| EngineObject.EngineCore.AdmitRequest | src/engine/admission.cpp:679-925 | contract, fence and identity checks, replay, or evaluation, as Admissions.AdmitExact says |
| EngineObject.EngineCore.ReleaseDecision | src/engine/admission.cpp:931-976 | release record, ledger, revocation record, history, with every failure path |
| EngineObject.EngineCore.CheckFit | src/engine/admission.cpp:1268-1293 | every held resource is known and within its allowance |
| EngineObject.EngineCore.Revalidate | src/engine/admission.cpp:982-1181 | the checks in order, with the answers and the states Revalidations.RevalidateExact gives |
| EngineObject.EngineCore.Revoke | src/engine/admission.cpp:1183-1219 | releases a live grant and reports an already released one, with the answers and the states Revocations.RevokeExact gives |
| EngineObject.EngineCore.EnforceAll | src/engine/admission.cpp:1257-1309 | the newest-first loop, stopping at the first failure |
| EngineObject.EngineCore.Enforce | src/engine/admission.cpp:1225-1331 | the pass, the flags and the audit mark |
| EngineObject.EngineCore.PublishPolicy | src/engine/engine.cpp:619-644 | validated, fresh, journaled before it is in force, then enforced; Publications.PolicyAnswered says which answer when |
| EngineObject.EngineCore.PublishCapacity | src/engine/engine.cpp:646-672 | validated, fresh, then enforced; Publications.CapacityAnswered says which answer when |
| EngineObject.EngineCore.PublishReservations | src/engine/engine.cpp:674-695 | validated, fresh, index rebuilt, then enforced; Publications.ReservationsAnswered says which answer when |
| EngineObject.EngineCore.PublishPaths | src/engine/engine.cpp:697-718 | validated and fresh, nothing enforced; Publications.PathsAnswered says which answer when |
| EngineObject.EngineCore.OpenDurable | src/engine/engine.cpp:790-1088 | replay, ledger, epoch, counters, boot record, with every refusal; Recoverable and Registry read the outcome off the journal |
| EngineObject.EngineCore.Register | src/engine/engine.cpp:1185-1210 | a fresh nonce for a publisher and boot, within the session bound |
| EngineObject.EngineCore.NewIncarnation | src/engine/engine.cpp:1227-1244 | next epoch, no sessions, boot record |
| Admissions.FenceExact | src/engine/admission.cpp:39-84 | a claim passes exactly when it is trusted and names no other incarnation, or a live session of its publisher and boot vouches for it; a claim of a later epoch is a conflict, any other is fenced |
| Admissions.RefuseExact | src/engine/engine.cpp:324-348 | what a refusal answers, journals, files and remembers, and that it changes nothing else |
| Admissions.GrantExact | src/engine/engine.cpp:350-398 | what a grant answers, journals, books, files and remembers at every point where the journal or the ledger can fail |
| Admissions.AdmitExact | src/engine/admission.cpp:679-925 | which of malformed, fenced, conflict, replay and evaluation a request meets, with every answer and every change |
| Revocations.ReleaseExact | src/engine/admission.cpp:931-976 | everything a release answers and changes, according to which of its two journal writes succeed |
| Revocations.RevokeExact | src/engine/admission.cpp:1183-1219 | every answer of a revocation and everything it changes: held or not, known or not, and which writes succeed |
| Revocations.SaysReleasedIff | src/engine/admission.cpp:1183-1219 | a revocation says it released exactly when the load was held, is gone and the second write succeeded; the load goes exactly when it was held, the first write succeeds and the totals cover it |
| Lapses.ReleasedUnsaid | src/engine/admission.cpp:948-961 | departure: a concrete run in which the load is released and the caller is told of a failure |
| Revalidations.OneReason | src/engine/admission.cpp:1021-1162 | a live grant either stays or has exactly one reason to go |
| Revalidations.HeldExact | src/engine/admission.cpp:982-1181 | every answer about a grant that holds load and everything it changes |
| Revalidations.RevalidateExact | src/engine/admission.cpp:982-1181 | every answer of a revalidation and everything it changes, for every decision id |
| Revalidations.AnswersIff | src/engine/admission.cpp:982-1181 | exactly when each of revoked (for each reason), ambiguous, invalidated and valid is answered, in terms of the authorities, the record and the entries |
| Revalidations.KeptIff | src/engine/admission.cpp:982-1181 | while the journal and the totals allow a release, a revalidation keeps a grant exactly when it was issued by this incarnation and is either unconfirmed or justified by every authority, its path and every resource it holds |
| Reconciling.InitialIsOld | src/engine/engine.cpp:608-615 | a fresh engine is consistent, and load awaiting confirmation is of an earlier epoch |
| Reconciling.OldOverRuns | src/engine/admission.cpp:982-1181 | over every run load awaiting confirmation is of an earlier epoch |
| Reconciling.UnjustifiedGoes | src/engine/admission.cpp:982-1181 | in every state of such a run a revalidation whose writes succeed takes away every grant that an authority, its path or a resource no longer justifies |
| Reconciling.ReopenedIsOldIff | src/engine/engine.cpp:1045-1058 | a reopened engine starts so exactly when every live grant is of an epoch whose boot record, or a later one, reached the journal |
| Lapses.UnjustifiedKept | src/engine/engine.cpp:1227-1244 | departure: a concrete run and restart in which the epoch is used again and a revalidation keeps a grant that nothing in force justifies |
| Publications.PolicyAnswered | src/engine/engine.cpp:619-644 | which answer a policy meets (invalid, another epoch, older, same generation with the same or other content, newer) and, for a newer one, the state it leaves or the journal failure it meets |
| Publications.CapacityAnswered | src/engine/engine.cpp:646-672 | the same for a capacity snapshot |
| Publications.ReservationsAnswered | src/engine/engine.cpp:674-695 | the same for a reservation snapshot |
| Publications.PathsAnswered | src/engine/engine.cpp:697-718 | the same for a path catalog |
| Publications.QosAnswered | src/engine/engine.cpp:720-740 | the same for a quality-of-service catalog |
| Publications.PrioritiesAnswered | src/engine/engine.cpp:742-763 | the same for a priority catalog |
| Casualties.EnforceLeaves | src/engine/admission.cpp:1225-1331 | a completed pass journals a release and a revocation, with the reason of its trigger, for exactly the decisions it takes away, marks their records, marks the audit position if any went, and leaves nothing unconfirmed |
| Casualties.CapacityCasualties | src/engine/engine.cpp:646-672 | a newer capacity published Ok does so for capacity reduction |
| Casualties.ReservationCasualties | src/engine/engine.cpp:674-695 | newer reservations for an obligation change |
| Casualties.PolicyCasualties | src/engine/engine.cpp:619-644 | a newer policy for a policy change, after its own record |
| Housekeeping.RegisterExact | src/engine/engine.cpp:1185-1210 | every answer of a registration, the nonce it gives and the sessions it leaves |
| Housekeeping.RetireExact | src/engine/engine.cpp:1212-1220 | a retirement ends that session and no other |
| Housekeeping.IncarnationExact | src/engine/engine.cpp:1227-1244 | a new incarnation moves the epoch and drops the sessions even when its boot record cannot be written |
| Housekeeping.CompactExact | src/engine/engine.cpp:1099-1165 | a compaction rewrites the journal or leaves it, and touches nothing else |
| Housekeeping.TickExact | src/engine/engine.cpp:1246-1249 | the clock moves forward by what is asked and stops at its end |
| Housekeeping.InvalidateExact | src/engine/engine.cpp:765-776 | forgetting capacity or paths forgets that authority and nothing else |
| Housekeeping.SessionsBounded | src/engine/engine.cpp:1185-1210 | over every run the live sessions stay within their bound and below the next nonce |
| Invariants.AdmissionKeeps | src/engine/engine.cpp:350-398 | an admission, complete or failed half way, keeps the engine consistent and moves the ledger by exactly the grant or not at all |
| Enforcement.ReleaseKeeps | src/engine/admission.cpp:931-976 | a release, complete or failed half way, keeps the engine consistent and takes away at most that one grant |
| Enforcement.FitsIffSurvives | src/engine/admission.cpp:1268-1293 | at its turn a decision fits the ledger as it stands exactly when it fits together with its elders |
| Enforcement.EnforceFromSettles | src/engine/admission.cpp:1257-1309 | however far the loop gets, the ledger is the closed form at and above some audit number and untouched below |
| Enforcement.EnforceExact | src/engine/admission.cpp:1225-1331 | a completed pass keeps exactly the decisions whose every resource is known and fits them with their elders, and closes the accounts; a failed one only removes |
| Enforcement.SurvivorsArePrefix | src/engine/admission.cpp:1257-1309 | with one resource the survivors are the longest audit prefix that fits |
| Closure.AdmitSafe | src/engine/admission.cpp:866-920 | no admission attempt lifts a resource above the larger of its old load and its allowance, and closed accounts stay closed |
| Closure.StepSafe | src/engine/engine.cpp:697-779 | every operation but an enforcing publication keeps the engine consistent and closed accounts closed |
| Closure.ClosureOverRuns | src/engine/admission.cpp:1225-1331 | after every run, with any journal failures, the accounts are closed if the last effective enforcing publication returned Ok |
| Closure.ClosedMeansItFits | src/engine/admission.cpp:555-673 | closed means load plus obligations plus headroom fits usable wherever there is load |
| CleanRuns.EnforceOrderly | src/engine/admission.cpp:1225-1331 | while journal writes succeed, enforcement always completes |
| CleanRuns.OrderOverRuns | src/engine/history.cpp:23-46 | over every run with non-zero minimums no entry is zero, and while writes succeed only held records lie below the cursor |
| CleanRuns.ClosureOverCleanRuns | src/engine/engine.cpp:619-695 | while writes succeed and minimums are at least one, the accounts are closed after every sequence of operations |
| CleanRuns.ClosureFromInitial | src/engine/engine.cpp:619-695 | from a freshly constructed engine every run is consistent, and closed if its last effective enforcing publication returned Ok or every request asks for at least one unit |
| CleanRuns.GrantsNeverRollBack | src/engine/admission.cpp:592-663 | in every consistent state the reservation of what an admission grants meets no overflow or rollback branch; only the entry bound can refuse it |
| Fencing.FencingOverRuns | src/engine/admission.cpp:39-84 | over every run of one process a claim from a session grant passes exactly while that session has been neither retired nor superseded |
| Reissue.LaterEpochIff | src/engine/engine.cpp:1045-1058 | a reopened engine is in a later epoch than a given one exactly when a boot record of that epoch or a later one reached the journal |
| Reissue.FencedAfterRestart | src/engine/admission.cpp:39-84 | a claim of such an epoch is fenced in every state the reopened engine ever reaches |
| Reissue.EpochReissued | src/engine/engine.cpp:1227-1244 | departure: when the boot record of a new incarnation cannot be written and the engine is reopened under the same number, the epoch is used again, and the claim of the first session granted in it before the restart passes once a first session is granted again |
| Mishaps.ClaimOutlivesRestart | src/engine/engine.cpp:1227-1244 | departure: a concrete run, crash and restart in which that happens |
| Staleness.StalenessIsPermanent | src/engine/admission.cpp:1079-1162 | in every run without invalidations, once an authority has moved past a decision's binding it is never again reported valid |
| Staleness.ValidExactly | src/engine/admission.cpp:982-1162 | valid is reported exactly when the grant is live, current, bound to every current generation, its path up and its resources fitting |
| Staleness.FloorLoweredIff | src/engine/engine.cpp:659-775 | over any run an older generation can be in force at the end exactly when an invalidate call forgot the floor and no later operation of the run acceptably published anything newer |
| Staleness.CapacityComesBackIff | src/engine/engine.cpp:765-769 | departure: publishing an older capacity generation puts it in force exactly in that case |
| Staleness.PathsComeBackIff | src/engine/engine.cpp:771-775 | departure: the same for paths |
| Episodes.StaleComesBack | src/engine/engine.cpp:765-769 | departure: a concrete run in which a decision is stale and reported so, capacity is invalidated and its old generation republished, and the decision is reported valid |
| Interrupted.EnforceClosesIff | src/engine/admission.cpp:1257-1331 | whatever it returns, an enforcement pass that must release k grants leaves the accounts closed exactly when its first 2k - 1 journal writes succeed |
| Interrupted.RepublishedClosedIff | src/engine/engine.cpp:659-668 | departure: republishing a snapshot whose enforcement failed returns Ok and enforces nothing; the accounts are then closed exactly when the first call got that far |
| Interrupted.RepublishedReservationsClosedIff | src/engine/engine.cpp:674-695 | departure: the same for reservations |
| Interrupted.RepublishedPolicyClosedIff | src/engine/engine.cpp:619-644 | departure: the same for a policy once its own record is written; before that it is not in force and republishing starts afresh |
| Mishaps.RepublishLeavesOpen | src/engine/engine.cpp:659-668 | departure: a concrete run in which the first publication fails on a journal write, the second returns Ok and the accounts are open |
| Idempotence.DecidedIsRemembered | src/engine/engine.cpp:324-398 | every decision an evaluated request is answered with, admitted or refused, is on record under its attempt |
| Idempotence.ReplayOverRuns | src/engine/admission.cpp:705-775 | after any run that neither evicts nor fences the key, an identical request repeats the original answer and different content is refused, with the ledger unchanged |
| Answers.FenceOverwritesIff | src/engine/admission.cpp:692-702 | departure: a request whose attempt is on record changes that record exactly when it is well formed, its claim is fenced and the refusal can be journaled |
| Answers.IssuedOverRuns | src/engine/history.cpp:100-113 | over every run each attempt on record names a decision already issued |
| Answers.FenceHidesGrant | src/engine/admission.cpp:692-702 | departure: the rightful claimant who then repeats the request is answered with the refusal while the ledger is unchanged |
| Mishaps.StrangerHidesGrant | src/engine/admission.cpp:692-702 | departure: a concrete run in which a stranger repeats a granted request and its claimant is told it was fenced |
| Answers.FailedButHeldIff | src/engine/engine.cpp:350-398 | departure: an admission answers with a failure and holds the granted load exactly when the journal takes intent and commit but not the compaction then due, and the ledger has room |
| Mishaps.FailedAnswerHeld | src/engine/engine.cpp:395-396 | departure: a concrete run in which that happens |
| Restoration.RestoreExact | src/engine/engine.cpp:1013-1030 | rebuilding succeeds exactly when every path's sum fits 64 bits, and then holds exactly the grants with exact totals, all awaiting revalidation |
| Meaning.SaysPrepare | src/engine/engine.cpp:872-885 | an intent adds no load |
| Meaning.SaysCommit | src/engine/engine.cpp:886-926 | a commit adds exactly the intended grant |
| Meaning.SaysRelease | src/engine/engine.cpp:955-965 | a release takes exactly that grant away |
| Meaning.SaysRevocation | src/engine/engine.cpp:966-984 | revoking the released, or outdating the held, changes no load |
| Compaction.CompactionPreservesMeaning | src/engine/engine.cpp:1099-1165 | recovering from the compacted journal gives the same grants, policy, epoch, audit position and listed history under the same index |
| Compaction.LiveRewritten | src/engine/engine.cpp:1126-1153 | every live grant is rewritten as an intent with exactly its entries, directly followed by its commit |
| Recoverable.ReplayIff | src/engine/engine.cpp:831-1000 | the journals recovery accepts, read off the entries: an admission is committed only where its intent is open, and every entry is of this program, valid and within bounds; otherwise the first entry that is not decides the status |
| Recoverable.AuditExact | src/engine/engine.cpp:831-1000 | recovery resumes at the highest audit number any entry carries |
| Recoverable.LiveIff | src/engine/engine.cpp:1002-1030 | a decision is live after recovery exactly when its intent was committed, no release names it, and its latest record admits and is not revoked |
| Recoverable.OpenedReports | src/engine/engine.cpp:790-1088 | what a successful opening reports, entry by entry, and the epoch it continues in |
| Recoverable.RefusedFor | src/engine/engine.cpp:790-1088 | which status an opening refuses with: the first unacceptable entry, the ledger, the epoch, its overflow, the boot record, in that order; opened otherwise |
| Registry.RegistryExact | src/engine/engine.cpp:886-954 | the reopened registry holds exactly the highest keys of the journal, each with its latest decision |
| Registry.RequestsExact | src/engine/engine.cpp:886-954 | the reopened registry knows each request by the fingerprint it was first recorded with |
| Registry.HistoryExact | src/engine/engine.cpp:886-984 | the reopened history holds, for each decision of the journal, its latest record as released and revoked since |
| Lineage.TidyOverRuns | src/engine/engine.cpp:415-482 | over every run, in every content the journal passes through, a decision is recorded once and as it was answered |
| Lineage.AnsweredIsTold | src/engine/engine.cpp:324-398 | a decision that has been answered is in the journal as it was answered, if at all |
| Recall.RecalledIff | src/engine/engine.cpp:886-954 | the reopened engine remembers a journaled decision under its attempt exactly when no later decision of the journal is under the same key and the key was not evicted |
| Recall.AnswerRecalledIff | src/engine/engine.cpp:790-1088 | the same for an answer given before any run and crash whose decision is in the journal |
| Recall.ReplayAcrossRestart | src/engine/admission.cpp:705-775 | in that case, after the restart and any undisturbed run, an identical request repeats the answer given before the crash and different content is refused, with the ledger unchanged |
| Recall.ReopenedNeverGrantsAgain | src/engine/admission.cpp:705-775 | a request whose key the reopened registry holds leaves the ledger of the reopened engine unchanged, whatever its content and claim |
| Recall.ReopenedRegular | src/engine/engine.cpp:790-1088 | an engine opened on a journal that records each decision once continues so |
| Lapses.ConflictHidesGrant | src/engine/admission.cpp:740-775 | departure: a concrete run and restart in which a request refused for conflicting content takes the place of the grant it conflicted with, which is then held but no longer remembered |
| Durability.IntentMeans | src/engine/engine.cpp:350-364 | an intent without a commit contributes no load and is on record as unresolved |
| Durability.AdmissionLands | src/engine/engine.cpp:350-398 | whatever the journal holds at any instant of an admission means the state before or the state after |
| Crash.ReleaseLands | src/engine/admission.cpp:931-976 | the same for a release |
| Crash.OperationLands | src/engine/engine.cpp:350-480 | the same for every operation but an enforcing publication |
| Crash.EnforceLands | src/engine/admission.cpp:1257-1331 | whatever the journal holds during enforcement means the pass carried out down to some audit number |
| Crash.DurabilityOverRuns | src/engine/engine.cpp:415-482 | after every run, with any journal failures, the journal means exactly what the engine holds |
| Restart.OpenExact | src/engine/engine.cpp:831-1084 | recovery succeeds exactly when path sums fit, the epoch is not behind and the boot record can be written, and then rebuilds exactly the journal's meaning; unresolved intents are reported |
| Collisions.StaysClosedIff | src/engine/engine.cpp:1061 | departure: the accounts of a reopened engine whose journal writes succeed stay closed over every run exactly when no live grant carries the audit number it resumed at |
| Collisions.CrashedStaysClosedIff | src/engine/engine.cpp:790-1088 | the same for an engine reopened on whatever a crash during an operation left in the journal |
| Mishaps.CollisionLeavesOpen | src/engine/engine.cpp:1061 | departure: a concrete grant, crash, restart and refused request, after which publishing a capacity of 1 answers Ok with a load of 5 held |
| Restart.CrashRecovers | src/engine/engine.cpp:790-1088 | however the engine dies during an operation, the reopened engine holds a possible outcome of it exactly and, unless a live grant carries the resumed audit number, meets every assumption of the run theorems again |
| Lifetimes.ClosureAcrossRestarts | src/engine/engine.cpp:790-1088 | accounts are closed in every state of the current incarnation while its journal writes succeed, after any number of crashes at any instants, as long as no restart found a live grant under the audit number it resumed at |
| Lifetimes.FirstOpening | src/engine/engine.cpp:790-1088 | opening an empty journal starts the first incarnation |
| Departures.GrantLastCollides | src/engine/engine.cpp:1061 | departure: a journal whose newest audit number belongs to a grant always collides |
| Collisions.SlotTaken | src/engine/history.cpp:9-46 | departure: filing a decision under a number an earlier record carries, and trimming, leaves the earlier record out of the ordered view |
| Departures.UnlistedEscapesEnforcement | src/engine/admission.cpp:1257-1309 | departure: a grant that is not listed keeps its entries through every enforcement |
| Departures.UnlistedIsForgotten | src/engine/engine.cpp:1126-1153 | departure: compaction loses such a grant |
| Reissue.ReissuedIff | src/engine/engine.cpp:1062 | the reopened engine will issue an id exactly when no decision record in the journal reaches it, whatever intents say |
| Reissue.CrashReissues | src/engine/engine.cpp:1062 | departure: an engine that dies with the intent of its next decision journaled and no commit reopens with that id still to be issued, and reports it ambiguous |
| Reissue.IssuedOnTheWay | src/engine/engine.cpp:324-398 | every id a run passes was the next one at some admission of that run, so an id still to be issued is issued |
| Mishaps.TwoRequestsOneId | src/engine/engine.cpp:1062 | departure: a concrete run, crash and restart in which two requests receive decision id 1 |
| Oversized.ReadableIff | src/durable/records.cpp:160 | departure: once the intent of a grant is journaled, the journal can be read back after the admission, whether it completes, fails or compacts, exactly when the grant covers at most 1024 resources |
| Oversized.WideGranted | src/engine/admission.cpp:831-848 | departure: a concrete valid request with 1024 bindings and a path across one more resource is granted over 1025 resources |
| Bytes.ByteWriter.Put | include/naf/core/bytes.hpp:36-46 | appends the little-endian bytes |
| Bytes.ByteReader.Get | include/naf/core/bytes.hpp:86-115 | reads them back, or nothing when too few remain |
| Bytes.TakeFieldsBytes | include/naf/core/bytes.hpp:78-117 | a run of fields is read back from its encoding, whatever follows |
| Bytes.FieldsBytesTaken | include/naf/core/bytes.hpp:78-117 | what was read re-encodes to the bytes consumed |
| RecordStreams.EncodePrepare | src/durable/records.cpp:124-139 | writes the encoding of an intent |
| RecordStreams.DecodePrepare | src/durable/records.cpp:141-171 | accepts and refuses as specified, with the count checked before the list |
| RecordStreams.EncodeDecision | src/durable/records.cpp:173-199 | writes the encoding of a decision |
| RecordStreams.DecodeDecision | src/durable/records.cpp:201-262 | accepts and refuses as specified |
| RecordStreams.EncodeRelease | src/durable/records.cpp:264-281 | writes the encoding of a release |
| RecordStreams.DecodeRelease | src/durable/records.cpp:283-323 | accepts and refuses as specified |
| RecordStreams.EncodePolicy | src/durable/records.cpp:49-72 | writes the encoding of a policy |
| RecordStreams.DecodePolicy | src/durable/records.cpp:74-122 | accepts and refuses as specified |
| Records.DecodeEncode | src/durable/records.cpp:22-382 | decoding the encoding of any record within bounds gives it back |
| Records.EncodeDecode | src/durable/records.cpp:22-382 | encoding what was decoded gives the accepted bytes back, and it is within bounds |
| Records.ExtensionRejected | src/durable/records.cpp:15-18 | nothing longer than an encoding is accepted |
| Records.PrefixRejected | src/durable/records.cpp:22-382 | nothing shorter than an encoding is accepted |
| Layout.DecisionLayout | src/durable/records.cpp:175-197 | the payload of a decision, field by field, each at its offset and width |
| Layout.PrepareLayout | src/durable/records.cpp:126-136 | the payload of an intent, field by field, with its list of amounts |
| Layout.ReleaseLayout | src/durable/records.cpp:266-278 | the payload of a release |
| Layout.RevocationLayout | src/durable/records.cpp:327-331 | the payload of a revocation |
| Layout.MarkLayout | src/durable/records.cpp:364-366 | the payload of an audit mark |
| Layout.BootLayout | src/durable/records.cpp:24-28 | the payload of a boot record |
| Layout.PolicyLayout | src/durable/records.cpp:51-70 | the payload of a policy before its lists |
| Layout.PolicyClassAt | src/durable/records.cpp:51-70 | the classes a policy lists |
| Layout.PolicyLimitsLayout | src/durable/records.cpp:51-70 | the payload of a policy after its lists |
| Layout.CodesInOrder | include/naf/durable/journal.hpp:36-48 | every enumerator and every kind of record is written as its position |
| JournalFile.FrameReadBack | src/durable/journal.cpp:62-95 | an encoded frame is read back whole, whatever follows it |
| JournalFile.TornTail | src/durable/journal.cpp:135-211 | frames followed by any strict prefix of one more scan as exactly those frames with exactly that prefix to truncate |
| JournalFile.AcceptedIsEncoding | src/durable/journal.cpp:135-193 | whatever the scan accepts is the encoding of the frames it found, up to the truncated bytes |
| JournalFile.FrontExact | src/durable/journal.cpp:135-193 | the frame at the front is torn, or damaged, exactly when the bytes are so by length, header and checksums |
| JournalFile.ScanExact | src/durable/journal.cpp:135-193 | every file is frames up to the point where the scan stops, and what stands there decides between intact, torn and corrupt |
| JournalFile.RepairIsFinal | src/durable/journal.cpp:200-209 | a second open finds the same frames and repairs nothing |
| JournalStore.ScanFile | src/durable/journal.cpp:135-193 | the scan loop finds the frames, their count, the last sequence and the torn bytes |
| JournalStore.DecodeEncoded | src/durable/journal.cpp:62-95 | decoding an encoded frame gives it back |
| JournalStore.ReplayFile | src/durable/journal.cpp:254-278 | the replay loop, with its bounds and its refusals |
| JournalStore.ReplayIntact | src/durable/journal.cpp:234-279 | replaying an intact file returns its frames, or fails only because a bound is exceeded |
| JournalStore.Journal.Open | src/durable/journal.cpp:100-211 | accepts exactly the files the scan accepts and cuts the torn tail; any other file is left alone, open and with the counters of before |
| JournalStore.Journal.Append | src/durable/journal.cpp:213-228 | one frame more at the end of the open file, or no change |
| JournalStore.Journal.Replay | src/durable/journal.cpp:234-279 | replays the open file, which gives the frames of an accepted one unless a bound is exceeded |
| JournalStore.Journal.Compact | src/durable/journal.cpp:281-308 | replaces the file by the given records, numbered from one, and opens it; a new file the open refuses stays in place |
| DurableStack.TornWriteRecovers | src/engine/engine.cpp:790-1000 | from a file torn at any byte of the last write, recovery sees exactly the records written before it |
| DurableStack.ReadIsEncoded | src/engine/engine.cpp:831-1000 | the records recovery replays are, one for one and in order, the ones the record frames encode |
| DurableStack.AcceptedFile | src/engine/engine.cpp:790-1000 | every file recovery accepts is, up to its torn tail, the encoding of frames whose records it replays in order |
| CrashedFile.EncodesOverRuns | src/engine/engine.cpp:415-482 | over every run whose counters fit 64 bits, with any journal failures, every content of the journal is within the bounds of the codecs |
| CrashedFile.CrashedFileRecovers | src/engine/engine.cpp:790-1088 | from the bytes a crash leaves, torn anywhere, recovery reads exactly a content the journal had during the operation, and the reopened engine holds a possible outcome of it |
| DurableStack.OversizedIntentRefused | src/durable/records.cpp:160 | departure: the encoding of an intent over more than 1024 resources is refused by its own decoder |
| Authority.AuthorityVector.Add | src/authority/authority.cpp:39-67 | merges into an existing subject, appends, or marks truncation |
| Authority.AuthorityVector.ComputeDigest | src/authority/authority.cpp:69-85 | sorts a copy by kind and subject and folds it |
| Authority.AddsExactly | src/authority/authority.cpp:39-67 | with one epoch and at most 320 subjects the vector has no repetition and holds the strongest generation of each |
| Authority.DigestOrderInsensitive | src/authority/authority.cpp:39-85 | any reordering of such additions gives the same digest |
| Authority.OrderInsensitiveIff | src/authority/authority.cpp:39-67 | with one epoch every order of a list is held as the same references exactly when it names at most 320 subjects |
| Authority.TruncationDependsOnOrder | src/authority/authority.cpp:62-65 | departure: of 321 concrete subjects the last added is dropped, and held when the same list is added in another order |

## Left out

- IPC endpoints, streams, servers, clients and their message codecs: each engine call runs under one lock and is one step here.
- File system behaviour below the journal (partial writes inside a live append, fsync, rename): an append takes full effect or none, a compaction replaces the file atomically.
- 64-bit wrap-around of decision ids, audit numbers and session nonces: they are unbounded naturals, and the record codecs state the bound where they encode them.
- Explanations, authority references attached to decisions, counters and status reports: only outcomes, kinds and numbers are kept.
- The mixing of the request fingerprint and of the authority digest: arbitrary functions.
- Compiler intrinsics for wide arithmetic: only the portable forms are modelled.
- Fault injection other than a failed append: `drop_*` and `corrupt_*` flags break the write discipline on purpose, and an injected enforcement failure is not modelled.
- The queries of the ledger that sort or list entries, and quality-of-service and priority publications in the engine object: they would only add easy members.
- Boot, revocation and audit-mark codecs as reader loops: their encodings are modelled and proved, their loops have no list to read.
- EngineObject.EngineCore.PublishCapacity: the status of a malformed snapshot is only known not to be Ok, since its validation distinguishes malformed from oversized input and the specification does not. The same holds for PublishReservations and PublishPaths.
- EngineObject.EngineCore.OpenDurable: the records are folded over a value and then installed in the history and attempt objects, so a refused recovery leaves those objects empty instead of half filled.
- Crash.DurabilityOverRuns: assumes that every grant covers at most 1024 resources, without which the journal cannot be read back (Oversized.ReadableIff); Sizes.GrantBound says when that is so. It also assumes non-zero minimums, without which a release can fail after it has been journaled (Ledger.ReleaseFailsIff).
- Restart.OpenExact: recovery of a list of records; the bounds on frames and bytes that the replay of the file itself checks first are those of JournalStore.ReplayIntact.
- Restart.CrashRecovers: when a live grant carries the resumed audit number only the ledger, the policy and the counters are described, because then the next decision takes that grant's audit slot (Collisions.SlotTaken). Lifetimes.ClosureAcrossRestarts excludes the same case, in which closure fails (Collisions.StaysClosedIff).
- CrashedFile.CrashedFileRecovers: assumes that the payloads fit the frame bound of the journal.
- Compaction.CompactionPreservesMeaning: is about grants and policy; what recovery makes of the attempts in any journal, compacted or not, is said by Registry.RegistryExact and Recall.RecalledIff.
- A release record with more than 1149 entries exceeds the 64 KiB payload bound and its append fails; in the engine this is one of the failures the environment may choose.
