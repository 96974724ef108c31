# ARP-1 bounded doer/reviewer protocol: verified model

A Dafny model of the bounded doer/reviewer protocol (ARP-1) of the factory, of the durable store and
coordinator that run it, and of two smaller protocols beside it.

A **unit** is one artifact under review. Its session holds a pinned seed (contract, policy, original
doer, reviewers), an append-only ledger of attempts, and a state that is trusted only when it equals
the replay of that ledger. An attempt is reserved before it executes and settled once. A settlement
accounts for usage, then time, then a runtime stop, then report binding, then stop retention, then
completion credit, then finding or repair reconciliation, then capacity. Sessions of one work item
draw on one parent budget in a compare-and-swap store; any number of workers, which may crash at any
point, advance them.

How the modules follow the program:

- `Domain`, `Rules`, `Findings`, `Reducer`, `Ledger`: the values, the rules, and the reducer as total
  functions. Each raised `ReviewViolation` or `ValueError` is a `Denial`.
- `FindingProcedures`, `SessionProcedures` and the methods of `Rules`: the loops that update lists,
  dictionaries and sets, proved equal to those functions; `CompleteAttempt` is the whole settlement.
- `Invariants`, `Runs`: what each step keeps, and the induction over every ledger.
- `Accounting`, `Overrun`, `Eligibility`, `Attainability`, `Termination`, `Progress`, `Continuity`,
  `Repairs`, `Relapse`, `Extension`: the whole-run theorems about one unit.
- `Independence`, `Credit`, `Outcomes`, `Records`, `Admission`: what one step of a run does, as
  equivalences with definitions spelled on the fields of seed, ledger, call and report, independent of
  the functions the reducer is made of. Together they fix every field of the state,
  the terminal reasons as a set.
- `Store`, `StoreRules`, `StoreRuns`, `Uniqueness`, `ReviewStoreObject`: the durable tables as values,
  when each transaction succeeds and what it writes, the invariants over every interleaving, and the
  store object with its tables as mutable fields.
- `Orchestration`: the coordinator as a transition system over workers, crashes and other clients.
- `Outbox`, `Turns`, `WorkflowMemory`: leased outbox claims, chat turns and event numbers under
  advisory locks interleaved statement by statement, and the in-memory store they agree with.
- `CounterCheck`: the JUnit stack traversal and the one-pass counter check.

Digests, fingerprints and sizes are arbitrary total functions in one record `h`; no safety
theorem assumes that different values have different digests, and the statements that need some
digests to differ say so as a hypothesis. Time is an integer number of microseconds. Advisory
lock keys are arbitrary functions, so locks may collide.

Two of the protocol's expectations do not hold as they stand. For each there is a reachable run on
which it fails and an exact condition:

- "Nothing needs repair until the next credited review" holds while the unit runs. A rejected but
  bound report with a critical, contract-gap or out-of-contract finding records an open blocker that
  no repair answers (`Relapse.ConcreteRelapse`), and nothing else brings a need back
  (`Repairs.NeedReturnsIff`). The unit is then terminal, so credited repairs are never adjacent.
- "Spent plus reserved stays within the policy" fails when the last call is charged more than the
  room left at its reservation (`Overrun.OverLimitReachable`), and only then (`Overrun.OverLimitIff`);
  no earlier call can overrun its hold, and the unit is then terminal.

Check everything with `dafny verify dfyconfig.toml`.

## Model

| member | source | states |
|---|---|---|
| `Eligibility.EligibilitySound` | src/nokinc_factory/policy/review.py:125-159 | An ELIGIBLE decision implies at least the minimum number of credited reviews, each a distinct uncached provider execution by a reviewer independent of every producer; the latest one is bound to the observed artifact, accepts it, and passes every mandatory criterion with all required evidence bound to it; nothing blocking is open, pending or terminal, and the unit is in time |
| `Independence.ReviewersApart` | src/nokinc_factory/policy/review_rules.py:27-37 | Every credited report of a valid session is signed by a registered reviewer whose canonical and underlying model differ from those of every producer of the artifact, and whose family differs at tier T2 or where the policy asks for it; both sides have family, qualification and capabilities |
| `Independence.StartIff` | src/nokinc_factory/policy/review_rules.py:48-58 | A session starts exactly from a seed admissible field by field, with an empty ledger and nothing spent |
| `Eligibility.DecisionEligible` | src/nokinc_factory/policy/review.py:133-142 | The decision is ELIGIBLE exactly when the replayed state is eligible, the observed artifact is the current one and the time window is open |
| `Eligibility.CreditsAgree` | src/nokinc_factory/policy/review_reducer.py:72-98 | By induction over the ledger: the completed reports in the state are, in order, exactly the reports of the credited attempts, each with a trusted receipt for its own call |
| `Eligibility.GenuineDistinct` | src/nokinc_factory/policy/review_reducer.py:83-84 | Credited reviews come from pairwise different provider executions |
| `Eligibility.WorthyPasses` | src/nokinc_factory/policy/review_rules.py:111-129 | A credited report that passes its mandatory criteria carries, for each of them, a PASS with every required evidence bound to the report's artifact |
| `Rules.EligibleIff` | src/nokinc_factory/policy/review_rules.py:137-156 | The list of eligibility reasons is empty exactly when the conjunction of exit conditions holds; a terminal state is never eligible |
| `Attainability.EligibleAttained` | src/nokinc_factory/policy/review.py:125-159 | Every seed that passes validation and whose invocation cap is at least the minimum number of reviews has a valid session that is ELIGIBLE: that many accepting reviews, reserved, settled and credited through the reducer |
| `Attainability.EligibleReachableIff` | src/nokinc_factory/policy/review.py:125-159 | For every admissible seed: some session of it is ELIGIBLE for some artifact and time if and only if its invocation cap covers its minimum number of reviews |
| `Attainability.EligibleNeedsRoom` | src/nokinc_factory/policy/review_reducer.py:51 | No session of a seed whose invocation cap is below the minimum number of reviews is ever ELIGIBLE |
| `Attainability.AcceptedStep` | src/nokinc_factory/policy/review_reducer.py:136-172 | An accepting report with PASS and required evidence for every criterion is reserved, credited and leaves the unit running or eligible, with every counter as expected |
| `Credit.CreditedReviewIff` | src/nokinc_factory/policy/review_reducer.py:152-163 | A review call is credited exactly when it is delivered inside its hold on a fresh receipt, its report is signed for the call and observed on the bound artifact, disposes of every criterion soundly, asks for changes only where something blocks, and rechecks only the latest repairs of open cases; it then adds exactly that report |
| `Credit.CreditedRepairIff` | src/nokinc_factory/policy/review_findings.py:144-176 | A repair call is credited exactly when it is delivered as held, signed by the original doer for another state of the same unit, and answers every open blocker soundly; it then installs exactly its artifact and one record per answer |
| `Credit.RepairedAnswers` | src/nokinc_factory/policy/review_findings.py:163-173 | In every attempt judged a credited repair no blocker is deferred, a fix changes payload, inputs or build references, and a rejection cites a digest the finding does not have |
| `Outcomes.AttemptEnds` | src/nokinc_factory/policy/review_reducer.py:101-133 | After any completed attempt a reason is terminal exactly when a heard report gives it, the cause of the failure ends the unit, a count reaches the limit, or a limit is exhausted and the unit did not just become eligible |
| `Outcomes.AttemptFails` | src/nokinc_factory/policy/review_reducer.py:101-114 | A credited attempt clears the failure counts; any other counts exactly one more of the one cause that the ordered checks give |
| `Outcomes.StepCause` | src/nokinc_factory/policy/review_reducer.py:142-172 | The judgement of a completed call, on fields: credited or not, and the first deficiency in the order stop, time, overrun, receipt, text, binding, content, closures |
| `Outcomes.StopsHeard` | src/nokinc_factory/policy/review_findings.py:29-45 | No stop of a report that reaches content checking is lost, spelled on verdict, severities, kinds and dispositions; on a credited review the four stop reasons are terminal exactly when the report gives them |
| `Outcomes.StopsIff` | src/nokinc_factory/policy/review_findings.py:29-45 | Each stop reason is given exactly by the verdict, finding or disposition that names it |
| `Outcomes.UnsoundRepairRefused` | src/nokinc_factory/policy/review_findings.py:163-173 | A delivered repair whose first unsound answer is the given one changes nothing and fails for that answer's reason; NO_PROGRESS is then terminal |
| `Records.AttemptRecords` | src/nokinc_factory/policy/review_findings.py:118-141 | How the whole record table moves with any completed attempt, field by field: reviewed on credit, only stops of a bound uncredited report, and not at all otherwise |
| `Records.ReopenedIff` | src/nokinc_factory/policy/review_findings.py:118-132 | A closed case reported again is open afterwards, counted once if it blocks, exactly when the artifact changed since it was closed or a digest is new to the case; otherwise its record is untouched |
| `Records.KnownIff` | src/nokinc_factory/policy/review_findings.py:72-89 | While the unit runs, what is known of a case is exactly what its completed reports and recorded repairs cited for it |
| `Admission.ReserveIff` | src/nokinc_factory/policy/review_reducer.py:41-69 | A reservation succeeds exactly when nothing stands against it on the ledger, is refused for the first thing that does, and books exactly one call bound to the present artifact |
| `Admission.DecisionIs` | src/nokinc_factory/policy/review.py:125-159 | The status, the set of reasons, the digests and the review count of every decision, each from the fields of the session |
| `Admission.ClockKept` | src/nokinc_factory/policy/review_reducer.py:97-98 | The clock of a session is the latest moment its ledger mentions |
| `Runs.LedgerSound` | src/nokinc_factory/policy/review_reducer.py:136-172 | Every state a ledger replays to is sound: pending implies not terminal, lineage fixed, closures accountable, records credited, blockers counted, failures bounded, capacity known, caps kept, reports creditworthy |
| `Invariants.ReservePending` | src/nokinc_factory/policy/review_reducer.py:41-69 | A reserved call is never terminal, is bound to the current artifact, and is either a review by an independent reviewer with a report slot left or a repair by the original doer that is needed |
| `Invariants.JudgedReasons` | src/nokinc_factory/policy/review_reducer.py:152-171 | A rejected completion of a sound pending state fails for one of eight recoverable reasons or a fatal one; an identity fault cannot arise at settlement |
| `Invariants.SettleCapacity` | src/nokinc_factory/policy/review_reducer.py:117-133 | After every settlement the unit is eligible, terminal, or has invocation, token, cost, review and (if needed) repair capacity left |
| `Invariants.SettleBlockers` | src/nokinc_factory/policy/review_findings.py:118-141 | Every settlement keeps: in a running unit each open blocker has between 1 and limit-1 occurrences |
| `Invariants.SettleAccountable` | src/nokinc_factory/policy/review_findings.py:97-117 | Every settlement keeps: each closed record points to the report, the PASS recheck and the repair resolution that closed it |
| `Invariants.SettleFailures` | src/nokinc_factory/policy/review_reducer.py:101-114 | Every settlement keeps: in a running unit only recoverable reasons have been counted, each below the limit |
| `Accounting.SessionAccounting` | src/nokinc_factory/policy/review_reducer.py:65-98 | On every valid session the counters equal what the ledger says was attempted, held and charged; spent plus held stays within the policy up to the overrun of the calls' own holds, which is zero while the unit runs |
| `Accounting.LedgerAccounted` | src/nokinc_factory/policy/review.py:53-63 | By induction: only the last attempt may be uncompleted and it is exactly the pending call; identifiers are distinct; spent is the sum of charges; recorded executions are exactly those of the ledger |
| `Accounting.ChargeAgrees` | src/nokinc_factory/policy/review_reducer.py:72-93 | The reducer's receipt test and charge equal the ledger reading: actual usage on a fresh matching receipt, at least the full hold otherwise; overrun agrees too |
| `Accounting.OverrunIsLast` | src/nokinc_factory/policy/review_reducer.py:89-90 | An attempt that overruns its hold is the last one and leaves the unit terminal, so there is at most one |
| `Accounting.WithinLimits` | src/nokinc_factory/policy/review_reducer.py:52-54 | Spent plus reserved never exceeds the policy limits by more than the total overrun of holds |
| `Overrun.OverLimitIff` | src/nokinc_factory/policy/review_reducer.py:86-93 | A ledger is over its token (cost) limit exactly when its last call was charged more than the room the policy had left when it was reserved |
| `Overrun.OverOnlyAtTheEnd` | src/nokinc_factory/policy/review_reducer.py:89-93 | A unit over a limit got there by its last call, which overran its own hold, and is terminal |
| `Overrun.OverLimitReachable` | src/nokinc_factory/policy/review_reducer.py:91-93 | Every admissible seed has a valid ledger that spends more than its token limit |
| `Accounting.SettlesIff` | src/nokinc_factory/policy/review_reducer.py:136-143 | A completion settles if and only if it names the pending call; nothing in its content can deny it, it clears both holds and never lowers what was spent |
| `Termination.LedgerBounded` | src/nokinc_factory/policy/review_reducer.py:101-114 | Every valid ledger is at most 9 * (max reviews + max repairs + 1) attempts long (without the factor 9 when the failure limit is 1), independently of the invocation cap |
| `Termination.LedgerPaced` | src/nokinc_factory/policy/review_reducer.py:161-172 | Since its last credit a running unit has made at most one attempt per distinct recoverable failure, plus the pending one |
| `Termination.CreditsCapped` | src/nokinc_factory/policy/review_reducer.py:59-62 | Credited completions are paid for by report slots and repair attempts |
| `Termination.RejectionGrows` | src/nokinc_factory/policy/review_reducer.py:101-114 | A rejection that leaves the unit running fails for a reason not counted since the last credit |
| `Progress.NeverStuck` | src/nokinc_factory/policy/review_reducer.py:117-133 | A valid session with nothing pending is eligible, terminal, or has capacity for its next call |
| `Progress.NextCallAdmitted` | src/nokinc_factory/application/review.py:108-113 | When a decision asks for a review or repair, the coordinator's reservation is admitted exactly when its identifier is unused and time, tokens and cost fit, and is refused only for one of those |
| `Progress.SettledIsFrozen` | src/nokinc_factory/policy/review_reducer.py:41-44 | A pending session is never terminal; a terminal or eligible one denies every reservation and every completion |
| `Continuity.RunGrows` | src/nokinc_factory/policy/review_findings.py:72-89 | Along a run no fingerprint is dropped, no blocking record becomes non-blocking, and known evidence, reports and resolutions only grow |
| `Continuity.ClosureProvenance` | src/nokinc_factory/policy/review_findings.py:97-117 | Every closed record of a valid session points to a credited report with a PASS recheck of the required check and to a recorded resolution of exactly that report made for the artifact it was closed on |
| `Continuity.StaysClosed` | src/nokinc_factory/policy/review_findings.py:118-127 | A closed case re-reported on its unchanged artifact with evidence known at any earlier point of the run keeps its record: closed and uncounted |
| `Continuity.NoBlockerSurvives` | src/nokinc_factory/policy/review_findings.py:133-141 | A blocker open before and after a credited review, mentioned in it or not, makes that attempt the last and leaves REPEATED_FAILURE terminal |
| `Continuity.BlockersBelowLimit` | src/nokinc_factory/policy/review_findings.py:133-141 | In a running unit an open blocker has been counted and is below the limit; with limit 1 there is none |
| `Continuity.StopsKept` | src/nokinc_factory/policy/review_reducer.py:157-172 | Every stop reason of a report that binds is terminal afterwards, whether the report is credited, incomplete or closes invalidly; spelled on verdict, severities, kinds and dispositions |
| `Continuity.UncreditedIsInert` | src/nokinc_factory/policy/review_findings.py:48-69 | An uncredited completion closes nothing, moves no occurrence counter, adds no report or resolution and keeps the artifact; new stop records start at zero |
| `Continuity.NothingOverwritten` | src/nokinc_factory/policy/review_reducer.py:161-163 | No attempt of a valid ledger starts from a terminal state, so replacing the terminal reasons on a credited review erases none |
| `Repairs.RepairSettles` | src/nokinc_factory/policy/review_findings.py:144-176 | After a credited repair nothing needs repair |
| `Repairs.QuietAfterRepair` | src/nokinc_factory/policy/review_rules.py:78-85 | From a credited repair until the next credited review nothing needs repair while the unit runs |
| `Repairs.NeedAfterRejection` | src/nokinc_factory/policy/review_findings.py:48-69 | Exactly when an uncredited completion creates a need: its report binds and carries a critical, contract-gap or out-of-contract finding; the unit is then terminal |
| `Repairs.NeedReturnsIff` | src/nokinc_factory/policy/review_rules.py:78-85 | Over whole runs: after a credited repair and before the next credited review something needs repair exactly when the latest attempt was rejected with a bound report carrying a critical, contract-gap or out-of-contract finding; that attempt is then the last |
| `Relapse.ConcreteRelapse` | src/nokinc_factory/policy/review_findings.py:48-69 | A concrete ledger: a credited review with a HIGH defect, a credited FIXED repair, then an incomplete but bound review with a CRITICAL finding, is valid and needs repair again |
| `Relapse.NeedReturns` | src/nokinc_factory/policy/review_findings.py:48-69 | The same run on every admissible seed with failure limit 2, a repair and three invocations |
| `Repairs.LedgerCites` | src/nokinc_factory/policy/review_findings.py:165-176 | Every recorded repair answers a completed report of the run |
| `Repairs.RejectionKeepsNeed` | src/nokinc_factory/policy/review_reducer.py:169-172 | A rejection that leaves the unit running does not change whether something needs repair |
| `Repairs.ReviewBetweenRepairs` | src/nokinc_factory/policy/review_reducer.py:55-59 | Between two credited repairs of a ledger there is a credited review |
| `Repairs.LineageFixed` | src/nokinc_factory/policy/review_rules.py:27-58 | Scope, key, producers, contract and context digests of the artifact never change, so every registered reviewer stays independent of every producer |
| `Extension.ExtensionIff` | src/nokinc_factory/policy/review_persistence.py:19-60 | A proposed session is accepted as RESERVE (COMPLETE) exactly when one public reserve (complete) operation of the committed session produces it, as UNCHANGED exactly when equal |
| `Extension.CreationIff` | src/nokinc_factory/policy/review_persistence.py:22-25 | Creation is accepted exactly for the session that starting its seed produces |
| `Extension.StartValid` | src/nokinc_factory/policy/review.py:66-72 | A started session passes replay validation |
| `Extension.ReserveValid` | src/nokinc_factory/policy/review.py:75-89 | A reserved session passes replay validation |
| `Extension.CompleteValid` | src/nokinc_factory/policy/review.py:92-122 | A completed session passes replay validation, whatever was delivered |
| `Extension.CompleteOpen` | src/nokinc_factory/policy/review.py:108-122 | Completing an open call always succeeds and rewrites exactly the last attempt |
| `Extension.OpenIsLast` | src/nokinc_factory/policy/review.py:108-122 | An uncompleted attempt of a valid session is the last one and is the pending call |
| `Extension.Redelivery` | src/nokinc_factory/policy/review.py:112-117 | Redelivering the recorded receipt, text and stop returns the session unchanged at any later time; any other delivery for that call, another text of the same report included, is denied |
| `Rules.CheckIndependent` | src/nokinc_factory/policy/review_rules.py:27-37 | The checking loop accepts exactly the qualified reviewers whose canonical and underlying model, and family where required, differ from those of every qualified producer |
| `Rules.CheckSeed` | src/nokinc_factory/policy/review_rules.py:48-58 | The seed check returns the first fault of its specification, or none |
| `Rules.CheckReportBinding` | src/nokinc_factory/policy/review_rules.py:88-108 | The binding loops return the fault of the first unbound item, or none |
| `Rules.CheckReport` | src/nokinc_factory/policy/review_rules.py:111-134 | The content loops return the fault of the first deficient criterion or finding, or none |
| `FindingProcedures.CollectStopReasons` | src/nokinc_factory/policy/review_findings.py:29-45 | The appended list is the specified stop reasons in order, each present exactly when the verdict, a finding or a disposition names it |
| `FindingProcedures.RetainBoundStops` | src/nokinc_factory/policy/review_findings.py:48-69 | The in-place loop computes, fingerprint by fingerprint, the retained table and terminal reasons, even when fingerprints repeat |
| `FindingProcedures.CollectEvidence` | src/nokinc_factory/policy/review_findings.py:72-89 | The grown set is exactly the digests of the record, of every completed report and of every resolution of the case |
| `FindingProcedures.ReconcileReport` | src/nokinc_factory/policy/review_findings.py:92-141 | On every report the three loops over one mutable table compute the item-by-item reconciliation, and on reports with distinct keys the fingerprint-wise one the theorems use |
| `FindingProcedures.InTurnAgrees` | src/nokinc_factory/policy/review_findings.py:92-141 | With distinct keys, item by item against the changing table equals fingerprint by fingerprint against the original state, for the table, the terminal reasons and the invalid closure |
| `FindingProcedures.ApplyRechecks` | src/nokinc_factory/policy/review_findings.py:97-117 | The recheck loop folds the rechecks over the table it changes and stops at the first invalid closure |
| `FindingProcedures.RecheckFoldAgrees` | src/nokinc_factory/policy/review_findings.py:97-117 | With distinct keys that fold refuses exactly when some recheck is invalid against the original state, and otherwise closes exactly the passed cases |
| `FindingProcedures.CountBlockers` | src/nokinc_factory/policy/review_findings.py:133-139 | In any iteration order every open blocker is counted once, and a repeat is reported exactly when one reaches the limit |
| `FindingProcedures.ReconcileRepairReport` | src/nokinc_factory/policy/review_findings.py:144-176 | The repair check returns the first fault or one resolution record per proposal, in order; an accepted repair defers no blocker, fixes by change and rejects with new evidence |
| `SessionProcedures.CollectEligibilityReasons` | src/nokinc_factory/policy/review_rules.py:137-156 | The appended reason list is the specified one |
| `SessionProcedures.RecordFailure` | src/nokinc_factory/policy/review_reducer.py:101-114 | The dictionary and list updates give the specified failed state |
| `SessionProcedures.ApplyCapacity` | src/nokinc_factory/policy/review_reducer.py:117-133 | The loop over the five limits gives the specified capped state |
| `SessionProcedures.CompleteAttempt` | src/nokinc_factory/policy/review_reducer.py:136-172 | The whole settlement as it runs, with its loops, equals the function every theorem is about |
| `SessionProcedures.ReplaySession` | src/nokinc_factory/policy/review.py:53-63 | The replay loop equals the fold of the ledger, including which denial stops it |
| `SessionProcedures.ValidateSession` | src/nokinc_factory/policy/review.py:53-63 | The check accepts exactly the sessions whose state is the replay of their ledger |
| `SessionProcedures.EvaluateSession` | src/nokinc_factory/policy/review.py:125-159 | The decision procedure equals the specified decision |
| `StoreRuns.EveryRunConsistent` | src/nokinc_factory/adapters/postgres_review_store.py:150-226 | In every run of any number of clients and sessions each parent counter is the sum over its sessions, invocations and repairs stay within the caps, spent plus reserved exceeds the token and cost caps by no more than the sessions overran their own holds, and every audit chain reads back and ends in the snapshot |
| `StoreRuns.CommitConsistent` | src/nokinc_factory/adapters/postgres_review_store.py:150-199 | One compare-and-reserve keeps that invariant |
| `StoreRuns.NoUnderflow` | src/nokinc_factory/adapters/postgres_review_store.py:205-209 | The underflow denial never fires |
| `StoreRuns.BalanceMoves` | src/nokinc_factory/adapters/postgres_review_store.py:203-226 | One accepted transition keeps a parent balanced: a reservation fits the caps, a settlement raises spend only by the overrun of its own hold |
| `StoreRuns.ChainFacts` | src/nokinc_factory/adapters/postgres_review_store.py:133-148 | In a readable chain row i is numbered i+1 and names the digests of the state before and after it and the one kind of step that leads there |
| `StoreRuns.RunAppends` | src/nokinc_factory/adapters/postgres_review_store.py:228-245 | Audit chains only grow at the end |
| `StoreRules.SwapIff` | src/nokinc_factory/adapters/postgres_review_store.py:150-226 | On every consistent store a swap is committed exactly when the session may be presented, the worker expects the committed one, and the step opens, books within the parent's window and ceilings, or settles, each newly named; it is refused exactly when presented but not expected |
| `StoreRules.SwapWrites` | src/nokinc_factory/adapters/postgres_review_store.py:181-199 | A committed swap writes exactly one session, one row with its digests, author and names, and one parent's counters by what the session's moved; any other reply writes nothing |
| `StoreRules.CommittedInTime` | src/nokinc_factory/adapters/postgres_review_store.py:210-217 | A committed pending call was committed inside its own time window, which ends before the parent expires |
| `StoreRules.ProvisionIff` | src/nokinc_factory/adapters/postgres_review_admin.py:26-45 | A work item gets one parent under an unused identifier; the same parent again changes nothing, any other is denied |
| `StoreRules.RegisterIff` | src/nokinc_factory/adapters/postgres_review_admin.py:47-69 | An admissible seed is registered once under the parent of its work item; the same registration again changes nothing, any other is denied |
| `StoreRuns.NeverReset` | src/nokinc_factory/adapters/postgres_review_store.py:173-178 | Create-if-absent changes nothing where a unit exists |
| `StoreRuns.ProvisionConsistent` | src/nokinc_factory/adapters/postgres_review_admin.py:26-45 | Provisioning a parent keeps the store invariant |
| `StoreRuns.RegisterConsistent` | src/nokinc_factory/adapters/postgres_review_admin.py:47-69 | Registering a unit keeps the store invariant |
| `Uniqueness.RowsUnique` | src/nokinc_factory/adapters/postgres_review_schema.py:78-79 | In every run no two event rows of any scopes share an invocation identifier or a provider execution |
| `Uniqueness.SessionsApart` | src/nokinc_factory/adapters/postgres_review_store.py:228-245 | In every run attempts of different sessions share neither an invocation identifier nor a provider execution |
| `Uniqueness.CreditsApart` | src/nokinc_factory/adapters/postgres_review_store.py:228-245 | Over all sessions of a run different credited reviews come from different provider executions |
| `StoreRuns.RowsAreCommits` | src/nokinc_factory/adapters/postgres_review_store.py:191-196 | The documents of a scope's event rows are exactly the sessions its successful swaps installed, in order |
| `ReviewStoreObject.HistoryOfRun` | src/nokinc_factory/adapters/postgres_review_store.py:94-148 | In every run history returns without denial exactly the sessions the successful swaps installed, and loading returns the last of them |
| `ReviewStoreObject.LoadExact` | src/nokinc_factory/adapters/postgres_review_store.py:94-121 | On a consistent store a registered unit loads without denial as its snapshot |
| `ReviewStoreObject.LoadIff` | src/nokinc_factory/adapters/postgres_review_store.py:94-121 | On a consistent store loading is denied exactly across tenants and for unregistered units, and otherwise gives the snapshot |
| `ReviewStoreObject.HistoryExact` | src/nokinc_factory/adapters/postgres_review_store.py:133-148 | On a consistent store history is the documents of the rows |
| `ReviewStoreObject.ReadBack` | src/nokinc_factory/adapters/postgres_review_store.py:133-148 | The history loop over the rows equals its specification, including where it stops |
| `ReviewStoreObject.ReviewStore.CompareAndReserve` | src/nokinc_factory/adapters/postgres_review_store.py:150-199 | The object answers and writes exactly as spelled on rows and session, stays valid, and commits a pending call only inside its time window before the parent expires |
| `ReviewStoreObject.ReviewStore.Transact` | src/nokinc_factory/adapters/postgres_review_store.py:150-199 | Counters, snapshot and event are written together or not at all, a pending call only inside its time window before the parent expires |
| `ReviewStoreObject.ReviewStore.ProvisionBudget` | src/nokinc_factory/adapters/postgres_review_admin.py:26-45 | Provisions once per work item and keeps the object valid |
| `ReviewStoreObject.ReviewStore.RegisterUnit` | src/nokinc_factory/adapters/postgres_review_admin.py:47-69 | Registers once per scope and keeps the object valid |
| `ReviewStoreObject.ReviewStore.History` | src/nokinc_factory/adapters/postgres_review_store.py:133-148 | Returns the specified history of the object's rows |
| `Orchestration.EveryPlaySound` | src/nokinc_factory/application/review.py:101-155 | In every execution of any number of workers with crashes anywhere: each held call was durably committed, is held by one worker, and is the committed pending state or has its completion in the committed ledger; the same holds of every executed call |
| `Orchestration.EveryCompletionDelivered` | src/nokinc_factory/application/review.py:119-143 | In every play each completion a committed ledger records is exactly the receipt, output and stop a worker had in hand for that call, or was committed by another client |
| `Orchestration.EveryHandoverActed` | src/nokinc_factory/application/review.py:119-134 | What a worker has in hand comes from the executor's return for the call it was executing, or from a stop before the call without receipt or output |
| `Orchestration.SettlementRecorded` | src/nokinc_factory/application/review.py:136-147 | A winning settlement makes the call, the time of delivery and exactly what the worker had in hand the last entry of the committed ledger |
| `Orchestration.ProposalIff` | src/nokinc_factory/application/review.py:101-115 | A worker proposes a call exactly when the decision asks for one and nothing stands against it: a repair by the original doer or a review by the first registered reviewer |
| `Orchestration.WinnerSawCurrent` | src/nokinc_factory/application/review.py:117-121 | A worker wins only while the session it decided on is still the committed one |
| `Orchestration.AtMostOnce` | src/nokinc_factory/application/review.py:117-133 | No invocation is executed twice |
| `Orchestration.DispatchAfterCommit` | src/nokinc_factory/application/review.py:117-133 | A worker about to execute holds a durably reserved call that was never executed and is the committed pending state, unless the committed ledger already records its completion |
| `Orchestration.EveryCallStands` | src/nokinc_factory/application/review.py:117-155 | No executed call is lost: it is the committed pending call of its scope, or the committed ledger of the scope records its completion |
| `Orchestration.OneUnsettled` | src/nokinc_factory/application/review.py:101-134 | Of two executed calls of one scope at least one has its completion in the committed ledger |
| `Orchestration.NeverResubmitted` | src/nokinc_factory/application/review.py:101-133 | Over every play: once a call is the committed pending call of a scope, then after any further actions of any workers and clients either that session is still committed and no event at all was appended to the scope, or the committed ledger records the completion of that very call |
| `Orchestration.SettledStays` | src/nokinc_factory/adapters/postgres_review_store.py:150-199 | A completion recorded in the committed ledger of a scope stays recorded whatever is requested |
| `Orchestration.EveryPlayConsistent` | src/nokinc_factory/application/review.py:101-155 | The store invariant holds throughout every such execution |
| `Orchestration.WinBooks` | src/nokinc_factory/adapters/postgres_review_store.py:173-196 | Winning the swap books an identifier no event had used, and makes the reservation the current state |
| `Orchestration.PendingOnlySettles` | src/nokinc_factory/policy/review_persistence.py:45-60 | The only accepted successor of a pending session records the completion of its own call |
| `Outbox.EveryRunSound` | src/nokinc_factory/adapters/postgres_workflow_store.py:366-441 | In every run attempts equals granted claims, consecutive grants of an entry are at least one full lease apart, an entry is acknowledged at most once, by its latest claimer, and nothing happens to it afterwards |
| `Outbox.OutboxStore.EnqueueEntry` | src/nokinc_factory/adapters/postgres_workflow_store.py:366-398 | Inserts once; a second delivery must name the same work item, topic and payload and changes nothing |
| `Outbox.OutboxStore.ClaimEntry` | src/nokinc_factory/adapters/postgres_workflow_store.py:400-430 | Claims the oldest unlocked row of the tenant that waits or whose lease has run out, or nothing exactly when there is none, and writes exactly the grant |
| `Outbox.OutboxStore.AckEntry` | src/nokinc_factory/adapters/postgres_workflow_store.py:432-441 | Acknowledges exactly a row claimed by that worker |
| `Turns.TraceIsMemory` | src/nokinc_factory/adapters/postgres_workflow_store.py:334-340 | In every lock interleaving an item's rows are numbered contiguously and read back as the list the in-memory store returns as its trace |
| `Turns.EveryRunNumbered` | src/nokinc_factory/adapters/postgres_workflow_store.py:264-279 | The numbering invariant behind it, with locks whose keys may collide |
| `Turns.TurnsWithinCap` | src/nokinc_factory/adapters/postgres_workflow_store.py:218-279 | With one finite limit used by all callers a tenant's reserved turns never exceed it under any lock interleaving |
| `Turns.OwnersOnly` | src/nokinc_factory/adapters/postgres_workflow_store.py:245-252 | In every lock interleaving the chat turns of an item stand only in the name of its owner |
| `WorkflowMemory.CountsAlwaysAgree` | src/nokinc_factory/application/service.py:539-547 | In every interleaving the in-memory lists and the event rows count the same reserved turns for every tenant |
| `WorkflowMemory.SameAdmission` | src/nokinc_factory/adapters/postgres_workflow_store.py:245-262 | A counting transaction goes on exactly when the in-memory store would admit the same event |
| `WorkflowMemory.MemoryStore.CreateIntake` | src/nokinc_factory/application/service.py:434-466 | Installs the item with its intake event as the whole list, replacing one drawn before |
| `WorkflowMemory.MemoryStore.Record` | src/nokinc_factory/application/service.py:468-520 | Appends the event exactly when the item is visible to the actor |
| `WorkflowMemory.MemoryStore.CountTurns` | src/nokinc_factory/application/service.py:540-545 | The loop over the lists counts the tenant's reserved turns |
| `WorkflowMemory.MemoryStore.ReserveChatTurn` | src/nokinc_factory/application/service.py:522-559 | Appends exactly when the limit is positive, the item is the actor's and the tenant has turns left |
| `CounterCheck.ValidatedStructure` | src/nokinc_factory/adapters/maestro_reports.py:77-89 | The stack loop accepts exactly the supported trees within depth and size, and lists them in visiting order |
| `CounterCheck.ShapedIff` | src/nokinc_factory/adapters/maestro_reports.py:14-22 | The accepted shape is exactly every child in its place and at most 32 levels below the root |
| `CounterCheck.TotalsCountCases` | src/nokinc_factory/adapters/maestro_reports.py:92-106 | The recursive totals of an accepted tree count the test cases that stand anywhere in it and how many failed, erred or were skipped |
| `CounterCheck.DeclaresIff` | src/nokinc_factory/adapters/maestro_reports.py:107-112 | The accepted declarations of a count are exactly its decimal numerals of one to seven digits |
| `CounterCheck.VisitListsEachOnce` | src/nokinc_factory/adapters/maestro_reports.py:77-89 | The visiting order contains every node exactly as often as it stands in the tree |
| `CounterCheck.VisitParentsFirst` | src/nokinc_factory/adapters/maestro_reports.py:77-89 | In the visiting order every child comes after its parent |
| `CounterCheck.ValidateCounts` | src/nokinc_factory/adapters/maestro_reports.py:92-112 | The single reversed pass accepts exactly when every declared counter of every suite is at most seven ASCII digits denoting its recursive test case total |
| `CounterCheck.CountersRightIff` | src/nokinc_factory/adapters/maestro_reports.py:92-112 | The property over the visiting order equals the property by recursion on the tree |

## Left out

- JSON, hashing, signatures and the Pydantic text fields: a delivered text carries what it parses to,
  and fields no rule reads are one opaque `prose` value, so that equality still depends on them.
- Schema limits on lengths and patterns of identifiers; only the constraints later rules rely on are
  well-formedness predicates.
- 64-bit column overflow in the counters: counters are unbounded naturals.
- SQL privileges, row-level security, role checks and format versions; each review-store call is one
  atomic tenant-scoped transaction.
- Orchestration.EveryCompletionDelivered: the normalization of an executor's raw result before it is
  settled is not modelled; a return carries what is settled.
- Orchestration.EveryPlaySound: the conditions under which a worker stops before executing
  (authorization, drift, deadline) are replaced by a free choice between stopping and calling, and the
  batch loop with its step limit of 1 to 64 is any sequence of steps; both only add behaviours. The
  returned status values of a step are not modelled, and workers are values of a transition system
  rather than objects.
- Repairs.NeedAfterRejection: assumes that no recorded resolution already cites the digest of the new
  report; Repairs.NeedReturnsIff derives this from the digest not being that of a completed report.
- Repairs.NeedReturnsIff: assumes that the digest of a rejected bound report is not that of a completed
  report of the run, an explicit no-collision hypothesis.
- Relapse.NeedReturns: assumes different digests for its two reports and its three executions;
  Relapse.ConcreteRelapse fixes digests that have them.
- Turns.TurnsWithinCap: a reservation without a limit takes no budget lock and is counted by nobody,
  so the cap is stated for callers that all use the same limit.
- Attainability.EligibleAttained: takes the identifiers and executions of the calls as given, distinct
  and with distinct execution digests; Attainability.EligibleReachableIff supplies them.
- Attainability.EligibleReachableIff: assumes that the execution digest tells the executions of one
  provider apart; with a constant digest a second review would be a replay.
- CounterCheck.ValidateCounts: object identity of XML elements is an explicit identifier, distinct
  over the tree.
- Report parsing around the counter check (inventory of expected tests, statuses, size, DTD refusal).
- Inbox rows, usage queries, item lists and the returned outbox documents.
- HTTP, identity, model-provider, Git and subprocess adapters, prompts, impact classification,
  authorization windows, release bundles, pricing and the command line.
