# AIOps control plane and agent: verified model

This project models the stateful protocols and the numeric cores of an AIOps control plane (Python)
and its node agent (Go), and proves properties of them in Dafny. `dafny verify dfyconfig.toml` checks
all of it.

## What is modelled

**The agent's action executor.** `ActionService` holds the two tables the mutex protects; each of its
methods is one holding of the mutex. `ActionRuns` gives every concurrent `Execute` call a program
counter (checks, critical section, executor call outside the lock, publication, waiting, cancellation)
and lets any interleaving of such steps happen. `ActionTheorems` proves that every interleaving
refines an atomic memo table, that the executor runs at most once per idempotency key, that no waiting
duplicate is orphaned, and exactly when a nonce is refused.

**The canonical task message.** `CanonicalArguments` and `CanonicalTask` model the sorted compact JSON
object, the message of digests that is signed, the fingerprint, and both sides of the encoding. SHA-256
and HMAC are arbitrary functions; where a theorem needs them not to collide it says so for the strings
at hand only.

**Incidents, plans, approvals, runs and monitoring on one store.** `Incidents`, `ControlPlane`,
`Remediation` and `Monitoring` model the services; `SystemRuns` lets signals, approval requests, rule
evaluations and restarts of the monitoring service come in any order, and proves an invariant over all
runs; `SystemTheorems` draws the consequences, and `ServiceTheorems` says what one request does in its own
terms. Each service call is one step. For approvals this is what
the program does: the handler calls the service synchronously
(`control-plane/src/aiops_control/api/routers/incidents.py:84`). For monitoring, which runs in a worker
thread (`control-plane/src/aiops_control/application/monitoring_scheduler.py:35-38`), it is a modelling
choice. One fact turned out to need a condition: monitoring finds its incidents by a query string that a
metric signal can spell too, so the system is safe on every run exactly when no rule id ends in an asset
selector (`SystemTheorems.SafeExactlyWhenReserved`).

**The telemetry stream.** `MetricStore` is the control plane's de-duplicating store, `TelemetryStream`
the protocol between client counter, stream, gateway and store, with lost connections, lost answers and
late batches of abandoned streams. A retried sequence number may carry newly collected content.

**The Prometheus export.** `PrometheusText` gives the text format and a reader for it, `MetricExport` the
listing, the grouping and the export, and proves that the text reads back to the stored samples.

**Numeric and graph cores.** `Ewma`, `Forecast`, `RootCause` and `IsolationForest` use exact reals where
the program uses floats; square roots, logarithms and powers of two are arbitrary functions with the
few properties that are needed stated as requirements. The seeded random generator of the isolation
forest is an arbitrary function of its state that draws within its bounds.

**Smaller protocols.** `RateLimiter` is the sliding-window limiter, `FaultState` and `FaultRuns` the
laboratory's timed faults with their single CPU worker.

`Outcomes`, `Numbers`, `TextOrder`, `Ranking` and `RealAlgebra` are shared helpers.

## Where the code does not keep a promise

Each of these is stated with an input or a run that shows it, together with the condition under which the
promise does hold.

- A signal whose metric name spells a monitoring rule's query makes two active incidents pass for the
  rule's own (`SystemTheorems.ImpostorsCollide`; exact condition in `SystemTheorems.SafeExactlyWhenReserved`).
- A batch is recorded as taken before its assets are checked, so a batch refused for a foreign asset is
  answered as taken when it is sent again (`TelemetryStream.RefusedBatchIsTaken`); nothing is refused exactly
  when no batch taken in carries a foreign asset (`TelemetryStream.RefusedExactlyWhenForeign`).
- Content the agent was answered for can be missing from the store: after a refusal
  (`TelemetryStream.ResentContentIsLost`), and without any when an answer is lost and other content is sent
  under the same number (`TelemetryStream.LostAnswerLosesContent`). Under each number the store has passed all
  content was taken in exactly when the agent sent one content under it
  (`TelemetryStream.TakenExactlyWhenUnchanged`).
- Label names are exported as they are: one that spells a label gives the line of two labels
  (`PrometheusText.LabelNamesCollide`). The text reads back exactly when names are identifiers and help texts
  and values hold no line feed (`MetricExport.ExportReadsBack`).
- The rate limiter reads the clock before it takes the lock. A request that takes the lock late with an
  earlier time can overfill a window (`RateLimiter.LatecomerOverfills`). The limit holds on all runs late
  by at most d exactly when the limit is at most one or d is zero (`RateLimiter.LimitHoldsExactly`); in
  windows shorter by d it always holds (`RateLimiter.ShorterWindowHolds`).
- A root-cause score can exceed 1 when an asset depends on itself (`RootCause.CycleExceedsOne`), exactly
  under the condition of `RootCause.ScoreAboveOne`; coverage does under that of `RootCause.CoverageIsShare`.
- A dispatcher or verifier that raises leaves the run running, the plan executing and the incident
  remediating for good, whatever compensation was due (`SystemTheorems.RaisedCallIsFinal`), exactly when the
  step after the completed ones, the verifier, or a compensation that is due raises
  (`SystemTheorems.ResolvedExactlyWhenRecovered`, `Remediation.RunningExactlyWhenRaised`).
- The forecast's state can depend on the order of points that share the latest time
  (`Forecast.TieChangesState`), exactly when they lie on both sides of the threshold
  (`Forecast.OrderMattersForLatestOnly`).
- A CPU fault can be active with no worker (`FaultRuns.LateActivationHappens`), exactly when an activation
  falls between a worker's last check and its clearing of the flag
  (`FaultRuns.NeverStrandedExactlyWhenNeverLate`).

## Model

| member | source | states |
|---|---|---|
| CanonicalArguments.SortSorts | control-plane/src/aiops_control/security/task_signing.py:70-76 | sorting keys keeps the mapping, orders the keys and repeats none |
| TextOrder.LessIsByFirstDifference | control-plane/src/aiops_control/security/task_signing.py:70-76 | texts are ordered by their first different character, the shorter one first |
| CanonicalArguments.AscendingUnique | control-plane/src/aiops_control/security/task_signing.py:70-76 | a mapping has one ascending listing, so insertion order cannot show |
| CanonicalArguments.ReadEscaped | control-plane/src/aiops_control/security/task_signing.py:71-76 | a JSON string (section 7 of RFC 8259) reads back to the characters it was made from |
| CanonicalArguments.EscapesAreSpelled | agent/internal/application/task_authenticator.go:112-123 | quote, backslash and controls are escaped as section 7 of RFC 8259 asks, and nothing else is |
| CanonicalArguments.RenderRoundTrip | agent/internal/application/task_authenticator.go:112-123 | the compact JSON object reads back entry by entry |
| CanonicalArguments.LayoutIsSpelled | agent/internal/application/task_authenticator.go:112-123 | two plain entries give braces, quoted names and values, a colon and a comma, no blanks, the smaller key first |
| CanonicalArguments.EncodingNamesMapping | agent/internal/application/task_authenticator.go:112-123 | two argument lists have the same encoding if and only if they are the same mapping |
| CanonicalArguments.WriteObject | agent/internal/application/task_authenticator.go:112-123 | the loop over sorted entries writes the compact object with its commas |
| CanonicalArguments.EncodeCanonicalArguments | agent/internal/application/task_authenticator.go:112-123 | the buffer loop writes the sorted compact object; absent and empty arguments give the same text, and no others do |
| CanonicalTask.DigestAll | agent/internal/application/task_authenticator.go:84-109 | the loop digests the fields one by one, in order |
| CanonicalTask.CanonicalTaskMessage | agent/internal/application/task_authenticator.go:84-109 | the digest loop gives the version line and the digests of the eight fields, or an error exactly for an incomplete job |
| CanonicalTask.MessageIsSpelled | agent/internal/application/task_authenticator.go:84-109 | the message, line by line: the version and the digests of the eight fields; only a job with an empty field or at Go's zero time has none |
| CanonicalTask.MessageNamesSignedParts | agent/internal/application/task_authenticator.go:84-109 | without a digest collision two jobs have the same message if and only if all eight signed parts agree, expiry to the second, arguments as a mapping |
| CanonicalTask.FingerprintNamesTask | agent/internal/application/action_service.go:155-167 | two jobs have the same fingerprint if and only if key, approved hash, action, target and arguments agree; id, nonce and expiry do not matter |
| CanonicalTask.FingerprintIsSpelled | agent/internal/application/action_service.go:155-167 | the fingerprint digests the message of the task under its key as id, at the start of the year 2000, with a nonce of zeros |
| CanonicalTask.SignedJobsVerify | agent/internal/application/task_authenticator.go:46-81 | a job that could be signed passes verification under the same secret and keeps its other fields |
| CanonicalTask.VerifiesExactly | agent/internal/application/task_authenticator.go:46-66 | a job verifies if and only if nonce and signature are lower-case hex of the right length and the signature is the message's own |
| CanonicalTask.SignatureBindsJob | agent/internal/application/task_authenticator.go:46-66 | if one signature verifies for two jobs and the digests do not collide, the jobs agree in every signed part |
| CanonicalTask.CanonicalMessage | control-plane/src/aiops_control/security/task_signing.py:45-78 | the field loop gives the message of the payload, or the error for a missing field or malformed arguments |
| CanonicalTask.SidesAgree | control-plane/src/aiops_control/security/task_signing.py:45-78 | the payload of a job, whatever the insertion order of its arguments, has the message the agent computes from the job |
| ActionServiceCore.Precheck | agent/internal/application/action_service.go:62-78 | a job passes if and only if it is authenticated, well-formed, unexpired and in scope, and is told which of these it is not, in the order of the checks |
| ActionServiceCore.ActionService.constructor | agent/internal/application/action_service.go:50-59 | both tables start empty |
| ActionServiceCore.ActionService.PruneExpiredNoncesLocked | agent/internal/application/action_service.go:146-152 | deleting in any order leaves exactly the bindings that expire later than now |
| ActionServiceCore.ActionService.AdmitLocked | agent/internal/application/action_service.go:80-109 | the critical section: prune, refuse a foreign nonce, bind the nonce, then lead, join or refuse |
| ActionServiceCore.ActionService.PublishLocked | agent/internal/application/action_service.go:122-127 | the result is stored and the record finished together; no other record, binding or nonce changes |
| ActionServiceCore.PruneKeepsUnexpired | agent/internal/application/action_service.go:145-152 | pruning never drops an unexpired binding, and pruning twice is pruning at the later time |
| ActionRuns.StepKeepsInvariant | agent/internal/application/action_service.go:62-129 | every atomic step of every call keeps owners, bindings, executions and publications consistent |
| ActionRuns.InvariantHolds | agent/internal/application/action_service.go:62-129 | the invariant holds after every interleaving |
| ActionRuns.AdvanceKeepsOwners | agent/internal/application/action_service.go:106-127 | each unfinished record has exactly one live owner, and an owner's record is unfinished |
| ActionRuns.AdvanceKeepsExecutions | agent/internal/application/action_service.go:111-120 | the executor has run for a key exactly when its record is finished or its owner has acted, never twice, only on authorised jobs |
| ActionRuns.AdvanceKeepsAnswers | agent/internal/application/action_service.go:98-104 | no successful answer precedes the publication it repeats |
| ActionTheorems.RefinesMemoTable | agent/internal/application/action_service.go:62-129 | after every run, every step is one step of an atomic memo table: claim, fill, answer, refuse or nothing |
| ActionTheorems.AdmissionExact | agent/internal/application/action_service.go:88-109 | past checks and nonce a job with a new key leads, one whose key is bound to the same task joins, one whose key is bound to another is refused |
| ActionTheorems.AnswersExact | agent/internal/application/action_service.go:98-128 | publication finishes the record with the owner's result and time, the owner answers with it, a duplicate with the record's result, and a cancelled one with an error |
| ActionTheorems.ExecutorRunsOnce | agent/internal/application/action_service.go:80-112 | at most one execution per key, only of jobs that passed every check, and one for each finished record |
| ActionTheorems.ExecutedJobsAreFit | agent/internal/application/action_service.go:62-78 | over every run the executor sees only jobs that an earlier check found signed, approved, unexpired and aimed at a laboratory target, or at a real one to look at it in approval mode |
| ActionTheorems.OneResultPerKey | agent/internal/application/action_service.go:98-128 | all successful replies under a key carry the one published result, each after its publication |
| ActionTheorems.ResultsAreOutcomes | agent/internal/application/action_service.go:111-128 | over every run each published result and each answer comes after its key's one execution, and is what the executor returned or a failure carrying its error and the executed job's id |
| ActionTheorems.BindingsAreFinal | agent/internal/application/action_service.go:89-96 | a key's fingerprint never changes and a finished record is never touched again |
| ActionTheorems.WaiterCanFinish | agent/internal/application/action_service.go:98-104 | from every reachable state a waiting duplicate is answered by the record's owner acting, if it has not yet, with any result, the owner publishing, and its own waking, and by nothing else |
| ActionTheorems.AnsweredCallsAgree | agent/internal/application/action_service.go:89-104 | callers answered under one key asked for the same task and got the same result |
| ActionTheorems.NoncesStayBound | agent/internal/application/action_service.go:80-88 | over any run a nonce is admitted under another key only after the expiry stored by its most recent admission |
| ActionTheorems.NonceRefusalExact | agent/internal/application/action_service.go:84-87 | past the checks, a job is refused for its nonce if and only if the nonce's most recent admission was under another key and is unexpired |
| Monitoring.TrailingIsARun | control-plane/src/aiops_control/application/monitoring_service.py:85-101 | the trailing run is of one outcome throughout and as long as can be |
| Monitoring.CountersMeanHistory | control-plane/src/aiops_control/application/monitoring_service.py:85-101 | the breach counter is the trailing breach run, the recovery counter the trailing healthy run capped, and alerting means a long enough breach run with no long enough healthy run since |
| Monitoring.FlappingIsBounded | control-plane/src/aiops_control/application/monitoring_service.py:85-101 | k alerts raised in n evaluations satisfy k * consecutive + (k - 1) * recovery <= n |
| Monitoring.DequeIsWindow | control-plane/src/aiops_control/application/monitoring_service.py:71-80 | for sample times that never decrease the deque is the whole sample log filtered to the window, so the value is the increase since its oldest sample |
| Monitoring.ValueIsReading | control-plane/src/aiops_control/application/monitoring_service.py:71-80 | the compared value is the sample, or its growth since the first sample of the window, for sample times that never decrease |
| Monitoring.MonitoringService.RuleValue | control-plane/src/aiops_control/application/monitoring_service.py:71-80 | the popping loop maintains the deque of its rule and asset and no other, and answers the increase or the plain value |
| Monitoring.MonitoringService.EvaluateOne | control-plane/src/aiops_control/application/monitoring_service.py:82-112 | one evaluation updates its own counters as specified; the breach counter is positive if and only if the value is above (gt), at or above (gte, increase_gte) or below (lt) the threshold; alerting, pending and healthy mean what they say |
| Remediation.CompletedStopsAtFirstFailure | control-plane/src/aiops_control/application/remediation_service.py:119-133 | steps run in order and stop at the first failure |
| Remediation.UndoReverses | control-plane/src/aiops_control/application/remediation_service.py:181-195 | the compensations are those of the completed steps that declare one, each once, in reverse order, with the declared action and arguments on the step's own target |
| Remediation.ExecutionShape | control-plane/src/aiops_control/application/remediation_service.py:116-167 | for every dispatcher and verifier, raising ones included, the log is a prefix of the plan, followed only by the reversed compensations, all of them once the run is over; succeeded, rolled back and failed exactly as promised |
| Remediation.RunningExactlyWhenRaised | control-plane/src/aiops_control/application/remediation_service.py:116-151 | the run is left running if and only if the step after the completed ones raises, or the verifier does after all steps, or a compensation of a run that did not succeed does; in the log a last dispatch that raised, unless the verifier did, and every earlier dispatch was answered |
| Remediation.Executor.RunSteps | control-plane/src/aiops_control/application/remediation_service.py:116-133 | the execution loop sends the steps up to the first failure or raise and returns the completed ones |
| Remediation.Executor.RollbackSteps | control-plane/src/aiops_control/application/remediation_service.py:181-195 | the backward loop lists the compensations of the completed steps |
| Remediation.Executor.Rollback | control-plane/src/aiops_control/application/remediation_service.py:174-207 | the compensation loop sends every compensation in reverse order even after one fails, unless one raises, and succeeds if there was one and all did |
| Remediation.Executor.Run | control-plane/src/aiops_control/application/remediation_service.py:116-167 | execution, verification of laboratory assets and compensation together give the specified log and status, or stop where a call raises |
| Incidents.NamespaceExact | control-plane/src/aiops_control/application/incident_service.py:80-87 | some metric signal's query equals a rule's query if and only if the rule id ends in an asset selector |
| Incidents.TransitionsAreSpelled | control-plane/src/aiops_control/domain/models.py:93-129 | which status each transition starts from and leads to; it changes status and time only; an incident is active if and only if it is neither resolved nor failed |
| Incidents.MatchIsBest | control-plane/src/aiops_control/application/incident_correlation_service.py:40-70 | a match exists if and only if some active incident in the window is relevant, and none scores higher, or as high and updated later |
| Incidents.MatchPrefersOwnAsset | control-plane/src/aiops_control/application/incident_correlation_service.py:33-70 | an open, investigating or waiting incident of the signal's own asset updated within five minutes is matched with score 1 before one at the other end of a depends_on edge with 0.7; of one kind the latest updated, then the first listed; with neither there is no match |
| Incidents.CandidatesByLoop | control-plane/src/aiops_control/application/incident_correlation_service.py:48-65 | the loop collects the relevant incidents in listing order with their scores |
| Incidents.BestByLoop | control-plane/src/aiops_control/application/incident_correlation_service.py:69-70 | the first candidate that no other beats |
| Incidents.FindMatchByLoops | control-plane/src/aiops_control/application/incident_correlation_service.py:40-70 | the two loops give the specified match |
| Incidents.CitedOnce | control-plane/src/aiops_control/application/incident_correlation_service.py:79-103 | every cited change is in the log and in the window before the signal, and none is cited twice |
| Incidents.CitationsAreNewest | control-plane/src/aiops_control/application/incident_correlation_service.py:79-103 | at most three changes are cited, and one is left out only for three that are at least as new |
| Incidents.EvidenceIsOfNewestChanges | control-plane/src/aiops_control/application/incident_correlation_service.py:72-103 | the evidence names the newest three changes of the signal's asset in the half hour before it, newest first, and spans from change to signal |
| Incidents.ChangeEvidenceByLoops | control-plane/src/aiops_control/application/incident_correlation_service.py:72-103 | the filter, sort and citation loops give the specified evidence |
| ControlPlaneCore.MergeByLoop | control-plane/src/aiops_control/application/incident_service.py:105-123 | merging appends the metric evidence, the changes not cited yet, and a hypothesis only for an asset not suspected yet |
| ControlPlaneCore.DiscountedIsProduct | control-plane/src/aiops_control/application/incident_service.py:118-118 | the merged hypothesis's score is confidence times relevance |
| ControlPlaneCore.ControlPlane.Evaluate | control-plane/src/aiops_control/application/incident_service.py:65-178 | one signal, under whatever verdict the detector gives, leaves the store alone, merges into the match or opens an incident; without a correlation service nothing matches and no change is cited |
| ControlPlaneCore.ControlPlane.MergeInto | control-plane/src/aiops_control/application/incident_service.py:105-125 | only the matched incident changes, and its newest plan is reported |
| ControlPlaneCore.ControlPlane.Open | control-plane/src/aiops_control/application/incident_service.py:127-178 | the new incident is stored with a plan and waits for approval, or without one when real assets are only observed |
| ControlPlaneCore.ControlPlane.ApproveAndExecute | control-plane/src/aiops_control/application/remediation_service.py:43-172 | one approval request: the first run's answer, the error of the first failing check, or the whole execution with its end states, or, when dispatcher or verifier raises, with run, plan and incident left as the last save before it has them |
| ControlPlaneCore.ControlPlane.Settle | control-plane/src/aiops_control/application/remediation_service.py:152-171 | the run gets its status and log, the plan and the incident their end states, nothing else changes |
| ControlPlaneCore.FindActiveByLoop | control-plane/src/aiops_control/application/monitoring_service.py:114-127 | an incident is found if and only if some active one of the asset cites the rule's query, the first in listing order |
| ControlPlaneCore.ControlPlane.EvaluateMetric | control-plane/src/aiops_control/application/monitoring_service.py:64-68 | one metric under one rule updates counters and the rule's incident together, by the value the rule compares, the sample or its increase since the oldest sample of the window; the breach counter is positive if and only if that value is past the threshold |
| SystemRuns.CitationsDistinct | control-plane/src/aiops_control/application/incident_correlation_service.py:87-102 | one signal's change citations have distinct queries |
| SystemRuns.MergeIsTidy | control-plane/src/aiops_control/application/incident_service.py:105-121 | merging keeps one hypothesis per asset and cites each change event at most once |
| SystemRuns.ApprovalKeeps | control-plane/src/aiops_control/application/remediation_service.py:56-172 | every approval request keeps the system invariant |
| SystemRuns.RefusalChangesLittle | control-plane/src/aiops_control/application/remediation_service.py:61-85 | a refused request saves no approval, no run and no incident, and at most marks its plan expired |
| SystemRuns.SignalKeeps | control-plane/src/aiops_control/application/incident_service.py:65-178 | every signal keeps the system invariant and leaves monitoring's incidents alone |
| SystemRuns.EvaluationKeeps | control-plane/src/aiops_control/application/monitoring_service.py:114-162 | every rule evaluation keeps the system invariant |
| SystemRuns.MeasureKeeps | control-plane/src/aiops_control/application/monitoring_service.py:64-68 | every sample under a rule keeps the system invariant |
| SystemRuns.StepKeeps | control-plane/src/aiops_control/application/incident_service.py:65-178 | every step of the system keeps the invariant |
| SystemRuns.InvariantHolds | control-plane/src/aiops_control/domain/models.py:93-129 | over every run: a pending plan's incident waits for approval, at most one plan per incident, one run per plan and per key, at most one active incident per rule and asset |
| SystemTheorems.EndStatesAgree | control-plane/src/aiops_control/application/remediation_service.py:161-171 | in every reachable state a run succeeded, failed or rolled back, or still running says exactly that its plan has succeeded, failed, or is executing, and its incident is resolved, failed, or remediating |
| SystemTheorems.NoApprovalWithoutRun | control-plane/src/aiops_control/application/remediation_service.py:87-112 | in every reachable state a refused request saves nothing of an approval; a new run was for a pending, unexpired plan with the approved content, has the execution's status and log, and plan and incident follow it |
| SystemTheorems.ResolvedExactlyWhenRecovered | control-plane/src/aiops_control/application/remediation_service.py:116-171 | in every reachable state a first granted request resolves the incident if and only if every step and any required verification succeeded, leaves it remediating if and only if a call raised, and fails it otherwise |
| SystemTheorems.ClosedForGood | control-plane/src/aiops_control/domain/models.py:110-129 | resolved and failed are absorbing, remediating after a raised call is never left, plans past approval and runs never change, and key bindings are never lost |
| SystemTheorems.RetryGetsFirstRun | control-plane/src/aiops_control/application/remediation_service.py:56-59 | a later request with a key already used gets the first run and changes nothing, whatever happened between and even when the first call raised |
| SystemTheorems.RaisedCallIsFinal | control-plane/src/aiops_control/application/remediation_service.py:56-118 | a run whose dispatcher raises on the first step: run, plan and incident stay half way whatever happens later, and a retry is given the running run |
| SystemTheorems.TracksMeans | control-plane/src/aiops_control/application/monitoring_service.py:114-127 | monitoring's incident for a rule and asset is one of the asset, neither resolved nor failed, that cites the rule's registered query |
| SystemTheorems.StatesFollowHistory | control-plane/src/aiops_control/application/monitoring_service.py:82-101 | in every run the counters of a rule and asset depend on its own evaluations since the last restart only |
| SystemTheorems.IncidentTracksAlert | control-plane/src/aiops_control/application/monitoring_service.py:114-162 | without restarts, after every evaluation exactly one active incident carries the rule's query if alerting, and none if not |
| SystemTheorems.LeftoversResolve | control-plane/src/aiops_control/application/monitoring_service.py:156-162 | across restarts there is never more than one such incident, and a leftover resolves at the first long enough healthy run |
| SystemTheorems.NeverResolvedEarly | control-plane/src/aiops_control/application/monitoring_service.py:156-162 | monitoring resolves an incident only after a healthy run of the required length |
| SystemTheorems.ImpostorsCollide | control-plane/src/aiops_control/application/incident_service.py:80-87 | two signals that spell a rule's query leave two active incidents for the rule |
| SystemTheorems.SafeExactlyWhenReserved | control-plane/src/aiops_control/application/monitoring_service.py:117-127 | every run is safe if and only if no registered rule id ends in an asset selector |
| ServiceTheorems.PermittedExactly | control-plane/src/aiops_control/application/real_action_policy.py:20-36 | the gate lets a plan through if and only if no step on a real target is there in observation mode, nor in any mode one that is not a health check, a log collection or an inspection |
| ServiceTheorems.GrantedExactly | control-plane/src/aiops_control/application/remediation_service.py:56-85 | in every reachable state a request under a new key is granted if and only if its plan is pending, unexpired, of the approved content and without a forbidden step, and otherwise gets the error of the first check that fails |
| ServiceTheorems.GrantedSaves | control-plane/src/aiops_control/application/remediation_service.py:87-114 | a granted request saves approver, hash and time, the run under its key, and of plan and incident the status and the time of the update only |
| ServiceTheorems.PlansRestartThenCheck | control-plane/src/aiops_control/application/incident_service.py:127-178 | in every reachable state each plan restarts and then checks its own incident's asset, compensates nothing and lives ten minutes, and a real asset has none in observation mode |
| ServiceTheorems.RealAssetsUntouched | control-plane/src/aiops_control/application/remediation_service.py:69-70 | so nothing is ever sent to a real target, in any mode, by any granted request of any run |
| ServiceTheorems.SignalJoins | control-plane/src/aiops_control/application/incident_service.py:65-125 | a normal signal changes nothing; an anomalous one with a match adds its metric evidence, the changes not cited yet and a hypothesis for an asset that had none, to that incident and no other, and reports the incident's newest plan |
| ServiceTheorems.SignalOpens | control-plane/src/aiops_control/application/incident_service.py:127-178 | an anomalous signal without a match opens one incident with the metric evidence and the changes, waiting with a pending plan, or open and without a plan when a real asset is only observed |
| ServiceTheorems.SamplesFollowReadings | control-plane/src/aiops_control/application/monitoring_service.py:71-80 | in every run what is remembered of an asset is the deque its readings since the last restart leave behind |
| ServiceTheorems.HistoryIsReadings | control-plane/src/aiops_control/application/monitoring_service.py:71-101 | in every run a rule's breaches are its readings held against its threshold by its operator, one by one |
| ServiceTheorems.ReadingsDecide | control-plane/src/aiops_control/application/monitoring_service.py:82-162 | in every run `consecutiveCycles` readings in a row past the threshold leave exactly one active incident for rule and asset, `recoveryCycles` in a row not past it leave none |
| ServiceTheorems.MeasureChanges | control-plane/src/aiops_control/application/monitoring_service.py:114-162 | one sample changes at most one incident: it opens the rule's own, spelled out, or resolves the one that is there |
| MetricStore.WriteKeepsLast | control-plane/src/aiops_control/adapters/agent_metric_store.py:34-38 | the stored value of a name and label set is the last registered one written, and only registered ones are stored |
| MetricStore.WriteConcat | control-plane/src/aiops_control/adapters/agent_metric_store.py:34-38 | writing batches one after another is writing their concatenation |
| MetricStore.WriteConsistent | control-plane/src/aiops_control/adapters/agent_metric_store.py:34-38 | whatever is written, every stored metric is under its own key and registered |
| MetricStore.AgentMetricStore.constructor | control-plane/src/aiops_control/adapters/agent_metric_store.py:16-19 | the store starts with no metric and no sequence |
| MetricStore.AgentMetricStore.AcceptBatch | control-plane/src/aiops_control/adapters/agent_metric_store.py:21-40 | a batch is taken if and only if its number exceeds the instance's maximum; then its registered metrics are written in order and the maximum raised |
| TelemetryStream.StepKeepsInvariant | control-plane/src/aiops_control/adapters/grpc_agent_gateway.py:48-105 | every event of client, connection and gateway keeps the protocol invariant |
| TelemetryStream.InvariantHolds | agent/internal/transport/grpcstream/client.go:61-133 | the invariant holds after every run with lost connections, lost answers and late batches |
| TelemetryStream.AppliedInOrder | control-plane/src/aiops_control/adapters/agent_metric_store.py:30-40 | the batches applied for an instance are exactly 1 to max, each once and in order, each one sent; the client's counter is max or max + 1; the store is the last-writer replay of what was applied |
| TelemetryStream.EveryAnswerAdvances | agent/internal/transport/grpcstream/client.go:123-129 | every answer on the client's stream acknowledges its current number, so the counter advances by one |
| TelemetryStream.NeverOutOfProtocol | control-plane/src/aiops_control/adapters/grpc_agent_gateway.py:48-63 | the gateway never aborts a stream of this client for a missing or repeated first frame |
| TelemetryStream.RefusedHelloBindsNothing | control-plane/src/aiops_control/adapters/grpc_agent_gateway.py:48-75 | in every run an unbound stream was answered nothing, and one whose first frame was refused is unbound |
| TelemetryStream.OnlyBoundStreamsApply | control-plane/src/aiops_control/adapters/grpc_agent_gateway.py:48-105 | only the first frame of a bound stream that was not ended is ever taken in; the first frame decides whether a stream is bound or ended |
| TelemetryStream.RefusedForGood | control-plane/src/aiops_control/adapters/grpc_agent_gateway.py:48-75 | a stream whose first frame was refused stays ended and unbound whatever happens later |
| TelemetryStream.RefusedExactlyWhenForeign | control-plane/src/aiops_control/application/agent_ingestion_service.py:71-89 | over every run, no batch is refused if and only if no batch taken in carries an asset of another node |
| TelemetryStream.RefusedBatchIsTaken | control-plane/src/aiops_control/application/agent_ingestion_service.py:71-89 | in every reachable state a new batch with a foreign asset ends its stream and takes its number, so what is sent again under it is acknowledged and ignored |
| TelemetryStream.ResentContentIsLost | control-plane/src/aiops_control/application/agent_ingestion_service.py:71-89 | a run of any agent: the first batch is refused for a foreign asset, other content sent again under number one is answered, the counter moves to two, and that content is nowhere |
| TelemetryStream.LostAnswerLosesContent | agent/internal/transport/grpcstream/client.go:96-133 | a run of any agent without a foreign asset or an ended stream: the answer to the first batch is lost, other content sent again under number one is answered, the counter moves to two, and that content is nowhere |
| TelemetryStream.TakenExactlyWhenUnchanged | control-plane/src/aiops_control/adapters/agent_metric_store.py:30-40 | in every run, under a number the store has passed all content the agent sent was taken in if and only if the agent sent one content under it |
| TelemetryStream.StoreIsConsistent | control-plane/src/aiops_control/adapters/agent_metric_store.py:34-55 | in every run the stored metrics are as a listing or an export needs them |
| TelemetryStream.TelemetryClient.Acknowledge | agent/internal/transport/grpcstream/client.go:127-129 | the counter moves past an acknowledged number and never back; only its own or a later number moves it |
| PrometheusText.ReplacementsAreOnePass | control-plane/src/aiops_control/adapters/agent_metric_store.py:78-81 | the three ordered replacements equal one pass that escapes each character once |
| PrometheusText.LabelEscapesAreSpelled | control-plane/src/aiops_control/adapters/agent_metric_store.py:78-81 | backslash, line feed and quote are escaped, and nothing else is |
| PrometheusText.ReadEscapedValue | control-plane/src/aiops_control/adapters/agent_metric_store.py:78-81 | every string reads back from its escaped form |
| PrometheusText.ReadsLine | control-plane/src/aiops_control/adapters/agent_metric_store.py:66-74 | each help, type and sample line reads back to the item it was made from |
| PrometheusText.LinesAreSpelled | control-plane/src/aiops_control/adapters/agent_metric_store.py:65-75 | the help, type and sample lines spelled out, with no, one and two labels, and how lines follow one another |
| PrometheusText.TextRoundTrip | control-plane/src/aiops_control/adapters/agent_metric_store.py:57-75 | the whole text reads back item by item, whatever the label values hold |
| PrometheusText.TextRead | control-plane/src/aiops_control/adapters/agent_metric_store.py:57-75 | whatever the text, the reader gets well-formed items only |
| PrometheusText.LabelNamesCollide | control-plane/src/aiops_control/adapters/agent_metric_store.py:66-81 | a label name that spells a label and the start of the next gives the same line as two labels |
| PrometheusText.ReadsBackExactly | control-plane/src/aiops_control/adapters/agent_metric_store.py:57-75 | the whole text reads back item by item if and only if names are identifiers and help texts and values hold no line feed |
| MetricExport.ListMetrics | control-plane/src/aiops_control/adapters/agent_metric_store.py:42-55 | the listing holds exactly the stored metrics of the name and with the asset label asked for, ordered by name and labels without repetition |
| MetricExport.LabelsLessByFirstDifference | control-plane/src/aiops_control/adapters/agent_metric_store.py:55-55 | label listings are ordered by their first different entry, by key and then by value, the shorter one first |
| MetricExport.SamplesOnce | control-plane/src/aiops_control/adapters/agent_metric_store.py:64-74 | each listed metric gives one sample, in listing order |
| MetricExport.ItemsInFamilies | control-plane/src/aiops_control/adapters/agent_metric_store.py:61-74 | each family header comes once, directly before the family's first sample |
| MetricExport.ExportReadsBack | control-plane/src/aiops_control/adapters/agent_metric_store.py:57-75 | the exported text parses back if and only if names are identifiers and help texts and values hold no line feed; its items are the stored samples, one each, grouped in families |
| MetricExport.GroupByName | control-plane/src/aiops_control/adapters/agent_metric_store.py:61-63 | the grouping loop keeps listing order within and across names |
| MetricExport.FamilyLines | control-plane/src/aiops_control/adapters/agent_metric_store.py:65-74 | one family's loop appends its header and its samples |
| MetricExport.AllLines | control-plane/src/aiops_control/adapters/agent_metric_store.py:64-74 | the loop over families gives the lines of all items |
| MetricExport.ExportText | control-plane/src/aiops_control/adapters/agent_metric_store.py:57-75 | the export of a store is the text of the items of its listing |
| Ewma.WeightsSumToOne | control-plane/src/aiops_control/adapters/ewma_detector.py:37-45 | the weights (1-a)^(n-1) and a(1-a)^(n-1-i) sum to one |
| Ewma.AverageIsDot | control-plane/src/aiops_control/adapters/ewma_detector.py:39-45 | blending in one sample at a time gives the closed-form weighted sum |
| Ewma.FoldIsWeighted | control-plane/src/aiops_control/adapters/ewma_detector.py:37-45 | the one-pass recurrence computes exactly the weighted mean and weighted variance of the whole history |
| Ewma.MeanWithinHistory | control-plane/src/aiops_control/adapters/ewma_detector.py:37-43 | the mean lies between any bounds of the history |
| Ewma.VarianceSign | control-plane/src/aiops_control/adapters/ewma_detector.py:45-47 | the variance is never negative, and zero if and only if a is 1 or all samples are equal |
| Ewma.ScoreAgainstThreshold | control-plane/src/aiops_control/adapters/ewma_detector.py:56-59 | a score reaches the threshold if and only if the squared distance reaches threshold^2 times the variance |
| Ewma.Recur | control-plane/src/aiops_control/adapters/ewma_detector.py:37-45 | the loop ends with the weighted mean and a variance that is not negative |
| Ewma.Judge | control-plane/src/aiops_control/adapters/ewma_detector.py:47-62 | zero spread: anomalous exactly off the mean; otherwise anomalous exactly from the threshold on |
| Ewma.Detect | control-plane/src/aiops_control/adapters/ewma_detector.py:30-62 | too few samples: not anomalous; otherwise the verdict against the weighted mean and variance; the one failing access |
| Forecast.ErrorSplits | control-plane/src/aiops_control/application/capacity_forecast_service.py:24-45 | any line's squared error is the fitted line's plus the squared distance between the lines over the points |
| Forecast.FitIsLeastSquares | control-plane/src/aiops_control/application/capacity_forecast_service.py:24-39 | the fitted line minimises squared error over all lines and is the only one that does |
| Forecast.SpreadSign | control-plane/src/aiops_control/application/capacity_forecast_service.py:28-30 | the denominator is never negative, and zero if and only if all times are equal |
| Forecast.VariationSplits | control-plane/src/aiops_control/application/capacity_forecast_service.py:40-45 | residual plus explained variation is the total |
| Forecast.RSquaredIsShare | control-plane/src/aiops_control/application/capacity_forecast_service.py:45-61 | R squared lies in [0, 1] before it is clamped |
| Forecast.ForecastMeans | control-plane/src/aiops_control/application/capacity_forecast_service.py:13-64 | which inputs fail and how; otherwise which state, and the fitted line equals the threshold at the predicted time |
| Forecast.StatisticsIgnoreOrder | control-plane/src/aiops_control/application/capacity_forecast_service.py:21-45 | fit and R squared depend on the points as a multiset only |
| Forecast.OrderMattersForLatestOnly | control-plane/src/aiops_control/application/capacity_forecast_service.py:21-64 | two orders of the same points agree in slope and R squared, and in everything if and only if their latest points are on the same side of the threshold |
| Forecast.OneLatestValue | control-plane/src/aiops_control/application/capacity_forecast_service.py:47-59 | with one value at the latest time the order of the input does not matter |
| Forecast.LatestIsLastListed | control-plane/src/aiops_control/application/capacity_forecast_service.py:21-47 | of several points at the latest time the one listed last is taken |
| Forecast.TieChangesState | control-plane/src/aiops_control/application/capacity_forecast_service.py:47-50 | two orders of the same four points, one exhausted, the other not |
| RootCause.BuildIndex | control-plane/src/aiops_control/application/root_cause_service.py:28-31 | the loop indexes exactly the depends_on edges, from dependency to dependents |
| RootCause.ReachableDependents | control-plane/src/aiops_control/application/root_cause_service.py:66-81 | on any graph and for any set order the breadth-first search ends with exactly the transitive dependents |
| RootCause.Rank | control-plane/src/aiops_control/application/root_cause_service.py:17-64 | the first `limit` hypotheses of all, highest score first, each naming the asset and the evidence of one and the same anomaly; none for no anomalies or a limit below one |
| RootCause.RankedBlames | control-plane/src/aiops_control/application/root_cause_service.py:25-64 | every hypothesis names the asset and the evidence of one anomaly and weighs its severity, lead and coverage; unless the limit cuts each anomaly is named once; scores never rise |
| RootCause.CoverageIsShare | control-plane/src/aiops_control/application/root_cause_service.py:46-48 | coverage is at most 1 unless all anomalies are of different assets and all of those depend on the candidate, itself included |
| RootCause.ScoreAboveOne | control-plane/src/aiops_control/application/root_cause_service.py:41-50 | a score is never negative, and exceeds 1 if and only if every anomaly is of an asset of its own, all of those depend on the candidate, itself included, and severity and lead lack less than coverage has too much |
| RootCause.ScoreIsShare | control-plane/src/aiops_control/application/root_cause_service.py:41-50 | without a cycle through the candidate its score lies in [0, 1], a corollary |
| RootCause.CycleExceedsOne | control-plane/src/aiops_control/application/root_cause_service.py:46-50 | two assets that depend on each other score 1.25 |
| RootCause.CauseScoresHigher | control-plane/src/aiops_control/application/root_cause_service.py:41-50 | a dependency at least as severe and as early as an anomalous transitive dependent scores strictly higher |
| RootCause.CauseSurvivesCut | control-plane/src/aiops_control/application/root_cause_service.py:64-64 | whatever the limit, a dependent in the answer comes after that dependency |
| RootCause.RankedAreBest | control-plane/src/aiops_control/application/root_cause_service.py:64-64 | the answer is full before anything is left out, and nothing left out scores higher than anything kept |
| IsolationForest.BuildTree | control-plane/src/aiops_control/adapters/isolation_forest_detector.py:88-115 | the recursive build draws left before right and gives the tree and generator state the draws determine |
| IsolationForest.GrownIsBuilt | control-plane/src/aiops_control/adapters/isolation_forest_detector.py:88-115 | for any generator the tree partitions its samples with splits in (min, max] within the depth limit, and stops where it must |
| IsolationForest.SplitsExactlyAbove | control-plane/src/aiops_control/adapters/isolation_forest_detector.py:99-115 | where samples differ and depth is left, the tree splits at the draw unless the draw is the minimum itself |
| IsolationForest.ForestIsGrown | control-plane/src/aiops_control/adapters/isolation_forest_detector.py:72-80 | for any generator the forest has one tree per draw, each grown from a sub-multiset of the history |
| IsolationForest.Paths | control-plane/src/aiops_control/adapters/isolation_forest_detector.py:66-80 | the loop samples, grows and follows the value down, tree after tree, and sums the paths |
| IsolationForest.SizesAddUp | control-plane/src/aiops_control/adapters/isolation_forest_detector.py:97-115 | leaf sizes sum to the sample size and the height keeps the depth limit |
| IsolationForest.RoutesKeepDepth | control-plane/src/aiops_control/adapters/isolation_forest_detector.py:97-115 | no way down a tree is longer than the depth that is left |
| IsolationForest.SplitsWithinSamples | control-plane/src/aiops_control/adapters/isolation_forest_detector.py:104-114 | every split of a subtree lies above the smallest of its samples and not above the largest |
| IsolationForest.LeafCountsItsSamples | control-plane/src/aiops_control/adapters/isolation_forest_detector.py:105-123 | the leaf a value falls into is as large as the number of samples that fall into it |
| IsolationForest.PathDependsOnPosition | control-plane/src/aiops_control/adapters/isolation_forest_detector.py:117-123 | path length and route depend only on which splits lie above the value |
| IsolationForest.PathIsRoute | control-plane/src/aiops_control/adapters/isolation_forest_detector.py:117-123 | a path is the turns taken and the correction for the leaf's size |
| IsolationForest.VerdictMeans | control-plane/src/aiops_control/adapters/isolation_forest_detector.py:80-86 | a value is anomalous if and only if its score reaches the threshold; the score is two to the minus average path in units of an unsuccessful search |
| IsolationForest.BeyondSamples | control-plane/src/aiops_control/adapters/isolation_forest_detector.py:117-123 | a tree gives a value beyond its samples the path of the nearest one |
| IsolationForest.ExtremesScoreAlike | control-plane/src/aiops_control/adapters/isolation_forest_detector.py:60-86 | one forest gives one verdict for all values from the history's maximum up, and one for all from its minimum down |
| IsolationForest.UnsuccessfulPathSign | control-plane/src/aiops_control/adapters/isolation_forest_detector.py:31-38 | the correction is never negative, and positive from two samples on |
| IsolationForest.UnsuccessfulPathIsSpelled | control-plane/src/aiops_control/adapters/isolation_forest_detector.py:31-38 | from three samples on the correction is twice the estimated harmonic number of one less, less twice the share of that one less |
| IsolationForest.ScoreFallsWithPath | control-plane/src/aiops_control/adapters/isolation_forest_detector.py:80-84 | every score lies in (0, 1], and is higher if and only if the total path is shorter |
| IsolationForest.DepthFor | control-plane/src/aiops_control/adapters/isolation_forest_detector.py:68-69 | the depth limit is the least one with room for all samples |
| IsolationForest.DepthsAreSpelled | control-plane/src/aiops_control/adapters/isolation_forest_detector.py:68-69 | the depths for one to five, 256 and 257 samples |
| IsolationForest.Random.constructor | control-plane/src/aiops_control/adapters/isolation_forest_detector.py:67-67 | every detection starts from the same seeded generator state |
| IsolationForest.Random.Uniform | control-plane/src/aiops_control/adapters/isolation_forest_detector.py:104-104 | a draw is the one the generator's state determines, and lies within its bounds for a lawful generator |
| IsolationForest.Random.Sample | control-plane/src/aiops_control/adapters/isolation_forest_detector.py:74-74 | a sample is the one the generator's state determines, drawn without replacement for a lawful generator |
| IsolationForest.Detect | control-plane/src/aiops_control/adapters/isolation_forest_detector.py:60-86 | too little history: not anomalous; otherwise the verdict of the forest the seed determines, anomalous if and only if the score reaches the threshold, so the answer is a function of settings, history and value |
| IsolationForest.DetectSaturates | control-plane/src/aiops_control/adapters/isolation_forest_detector.py:60-86 | for one seed and history the detector gives one answer for all values from the maximum up and one for all from the minimum down |
| RateLimiter.ExpiredIsWindow | control-plane/src/aiops_control/application/rate_limit_service.py:24-31 | popping the front for the next request leaves what was admitted in that request's window |
| RateLimiter.QueueIsWindow | control-plane/src/aiops_control/application/rate_limit_service.py:27-35 | the queue is the admitted log filtered to the window of the last request |
| RateLimiter.ShorterWindowHolds | control-plane/src/aiops_control/application/rate_limit_service.py:22-35 | when requests come at most d late in lock order, no window shorter by d ever holds more than `limit` admissions |
| RateLimiter.NeverOverLimit | control-plane/src/aiops_control/application/rate_limit_service.py:22-35 | for times that never decrease in lock order no window (t-w, t], for any t, ever holds more than `limit` admissions |
| RateLimiter.OneIsNeverOverfilled | control-plane/src/aiops_control/application/rate_limit_service.py:22-35 | a limit of at most one holds in whatever order times come |
| RateLimiter.LimitHoldsExactly | control-plane/src/aiops_control/application/rate_limit_service.py:22-35 | the limit holds on all runs late by at most d if and only if the limit is at most one or d is zero |
| RateLimiter.RefusedExactlyWhenFull | control-plane/src/aiops_control/application/rate_limit_service.py:32-35 | a request is refused if and only if its own window already holds `limit` admissions |
| RateLimiter.PopsAreAdmissions | control-plane/src/aiops_control/application/rate_limit_service.py:30-34 | pops plus queue length equal admissions, in whatever order times come |
| RateLimiter.KeysAreIndependent | control-plane/src/aiops_control/application/rate_limit_service.py:28-35 | under any interleaving each key behaves as if it were alone |
| RateLimiter.LimitHoldsPerKey | control-plane/src/aiops_control/application/rate_limit_service.py:22-35 | interleaved requests of many keys are limited key by key, in windows shorter by the lateness of that key's requests |
| RateLimiter.LatecomerOverfills | control-plane/src/aiops_control/application/rate_limit_service.py:25-27 | four requests whose times do not follow lock order put three admissions into a window of limit two |
| RateLimiter.SlidingWindowRateLimiter.constructor | control-plane/src/aiops_control/application/rate_limit_service.py:15-20 | a limiter starts with no queue |
| RateLimiter.SlidingWindowRateLimiter.Allow | control-plane/src/aiops_control/application/rate_limit_service.py:22-35 | one request changes its own key's queue as specified and answers whether it was admitted |
| FaultStateCore.FaultState.constructor | lab/app/fault_state.py:22-26 | no deadline and no worker at the start |
| FaultStateCore.FaultState.Activate | lab/app/fault_state.py:28-46 | which arguments are refused and how; otherwise the deadline is set and a worker is asked for if and only if the flag was clear |
| FaultStateCore.FaultState.Clear | lab/app/fault_state.py:48-52 | clearing removes one deadline and no other, and clearing again changes nothing |
| FaultStateCore.FaultState.Active | lab/app/fault_state.py:54-64 | active exactly before the deadline; an expired one is dropped |
| FaultStateCore.FaultState.FinishWorker | lab/app/fault_state.py:77-78 | a leaving worker clears the flag and touches no deadline |
| FaultRuns.OneWorker | lab/app/fault_state.py:36-45 | under every interleaving at most one worker is pending, looping or exiting, and the flag is set if and only if one is |
| FaultRuns.ActiveMeansDeadlineAhead | lab/app/fault_state.py:54-64 | lazy deletion cannot be observed: active means the last uncleared activation's deadline is still ahead |
| FaultRuns.FaultsExpire | lab/app/fault_state.py:33-38 | no stored deadline lies more than two minutes ahead |
| FaultRuns.NeverStrandedExactlyWhenNeverLate | lab/app/fault_state.py:66-78 | a run never has an active CPU fault without a lasting worker if and only if no activation falls between a last check and the clearing of the flag |
| FaultRuns.StrandedRunsIdle | lab/app/fault_state.py:66-78 | when that worker leaves, the fault is active with no worker and a clear flag |
| FaultRuns.LateActivationHappens | lab/app/fault_state.py:66-78 | a run in which it happens |

## Left out

- Transport and I/O: gRPC and TLS set-up, HTTP routes, Docker and procfs calls, PostgreSQL; they appear as arbitrary results or as in-memory maps.
- Cryptographic strength of SHA-256 and HMAC; the constant-time comparison.
- Exact JSON bytes of the two languages' libraries for unusual characters; one encoder stands for both.
- Floating-point rounding, so equalities of computed floats; the infinite score of a detector is a value of its own.
- The agent's reconnection back-off and the wrap-around of its 64-bit sequence numbers.
- Restarts of the control plane, which clear the sequence maxima; a restart of monitoring alone is modelled.
- Tasks carried in acknowledgements, topology and asset snapshots stored beside the metrics.
- Human-readable titles, reasons and messages; random identifiers, which are positions in the store here.
- A crash between two saves of one approval, other than where a dispatch or a verification raises; one approval is one step.
- The loop over all rules and metrics of one monitoring cycle, asset selectors with wildcards, and disabled rules; one evaluation is one step.
- Evidence collection for arbitrary user queries, log templating, change-risk and SLO formulas, tool registry, plugins and console views: no state or easy members.
- CanonicalTask.CanonicalTaskMessage: the printed form of the expiry is an arbitrary function of its second, because calendar arithmetic is not part of this model.
- ControlPlaneCore.ControlPlane.Evaluate: the detector's verdict is a parameter, since any detector can be installed (`Ewma` and `IsolationForest` model two); incidents and plans are values in sequences, so aliasing of a saved entity between callers is not captured.
- ActionServiceCore.ActionService.PublishLocked: the channel that wakes waiters is the record's change from running to finished.
- TelemetryStream.NeverOutOfProtocol: whether a certificate matches the node named in the first frame is a choice of the run, not computed from registered identities.
- FaultRuns.OneWorker: the worker's busy loop and sleeps are the time that may pass between two checks.
