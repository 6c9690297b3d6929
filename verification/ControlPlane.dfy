/** The control plane's shared store and the three services that change it. Identifiers are positions:
  * the n-th saved incident, plan or run is number n, which makes every new identifier fresh.
  */
module ControlPlaneCore {
  import opened Outcomes
  import opened Monitoring
  import opened Incidents
  import Remediation

  datatype PlanStatus = Pending | Approved | Executing | Succeeded | PlanFailed | Expired

  datatype Plan = Plan(incident: nat, summary: string, steps: seq<Remediation.Step>, createdAt: int, expiresAt: int,
                       status: PlanStatus)
  {
    function Content(): PlanContent {
      PlanContent(incident, summary, steps)
    }
  }

  /** What a plan's hash covers. Every plan is of medium risk, so the risk level says nothing more. */
  datatype PlanContent = PlanContent(incident: nat, summary: string, steps: seq<Remediation.Step>)

  datatype Approval = Approval(plan: nat, approver: string, approvedHash: string, approvedAt: int)

  /** `sent` is the log saved when the run is over. */
  datatype ActionRun = ActionRun(
    plan: nat, incident: nat, idempotencyKey: string, approvedHash: string,
    status: Remediation.RunStatus, sent: seq<Remediation.Step>, createdAt: int)

  datatype Store = Store(
    incidents: seq<Incident>,
    plans: seq<Plan>,
    approvals: seq<Approval>,
    runs: seq<ActionRun>,
    actionKeys: map<string, nat>,
    states: map<(string, string), RuleState>,
    samples: map<(string, string), seq<Sample>>)

  datatype Config = Config(
    rules: map<string, Rule>,
    correlates: bool,
    edges: seq<Edge>,
    realActionsMode: string,
    contentHash: PlanContent -> string)

  const EMPTY := Store([], [], [], [], map[], map[], map[])

  // ---- signals -----------------------------------------------------------------------------

  datatype Detection = Detection(anomalous: bool, score: real)

  /** The incident and plan a signal led to. */
  datatype Outcome = Outcome(incident: Option<nat>, plan: Option<nat>)

  const PLAN_LIFETIME := 600000
  const EVIDENCE_WINDOW := 300000

  predicate RealAsset(assetId: string) {
    "host/" <= assetId || "docker/devops-lab/" <= assetId
  }

  function Confidence(score: real): real {
    if score / 10.0 <= 1.0 then score / 10.0 else 1.0
  }

  /** A match has relevance 1 or 0.7. */
  function Discounted(confidence: real, relevance: real): real
    requires relevance == 1.0 || relevance == 0.7
  {
    if relevance == 1.0 then confidence else 0.7 * confidence
  }

  lemma DiscountedIsProduct(confidence: real, relevance: real)
    requires relevance == 1.0 || relevance == 0.7
    ensures Discounted(confidence, relevance) == confidence * relevance
  {
  }

  function MetricEvidence(signal: Signal): Evidence {
    Evidence("prometheus", MetricQuery(signal.name, signal.assetId), signal.occurredAt - EVIDENCE_WINDOW,
             signal.occurredAt)
  }

  /** The elements whose query the incident does not cite yet. */
  function NewQueries(incident: Incident, more: seq<Evidence>): seq<Evidence> {
    if more == [] then []
    else
      NewQueries(incident, more[..|more| - 1])
      + if incident.Cites(more[|more| - 1].query) then [] else [more[|more| - 1]]
  }

  predicate Suspects(incident: Incident, assetId: string) {
    exists h :: 0 <= h < |incident.hypotheses| && incident.hypotheses[h].assetId == assetId
  }

  function Merge(incident: Incident, signal: Signal, score: real, changes: seq<Evidence>, now: int): Incident {
    incident.(
      evidence := incident.evidence + [MetricEvidence(signal)] + NewQueries(incident, changes),
      hypotheses := incident.hypotheses
                    + if Suspects(incident, signal.assetId) then []
                        else [Hypothesis(signal.assetId, score, |incident.evidence|)],
      updatedAt := now)
  }

  /** The newest plan of an incident. */
  function PlanOf(plans: seq<Plan>, incident: nat): (r: Option<nat>)
    ensures r.Some? ==> r.value < |plans| && plans[r.value].incident == incident
  {
    if plans == [] then None
    else
      var n := |plans| - 1;
      var earlier := PlanOf(plans[..n], incident);
      if plans[n].incident == incident && (earlier.None? || plans[n].createdAt > plans[earlier.value].createdAt) then
        Some(n)
      else earlier
  }

  function DefaultSteps(assetId: string): seq<Remediation.Step> {
    [Remediation.Step("restart_container", assetId, map["grace_seconds" := "10"], "容器恢复运行且 HTTP 健康检查通过", None, map[]),
     Remediation.Step("health_check", assetId, map[], "容器状态为 running", None, map[])]
  }

  function NewIncident(signal: Signal, detection: Detection, changes: seq<Evidence>, now: int): Incident {
    Incident(signal.assetId, if detection.score >= 5.0 then "high" else "medium", Open, now, now,
             [MetricEvidence(signal)] + changes, [Hypothesis(signal.assetId, Confidence(detection.score), 0)])
  }

  /** A signal joins incident `i`. */
  function MergeSignal(s: Store, i: nat, signal: Signal, score: real, changes: seq<Evidence>, now: int)
    : (Store, Outcome)
    requires i < |s.incidents|
  {
    (s.(incidents := s.incidents[i := Merge(s.incidents[i], signal, score, changes, now)]),
     Outcome(Some(i), PlanOf(s.plans, i)))
  }

  /** A signal opens an incident, with a plan unless real assets are only observed. */
  function OpenIncident(c: Config, s: Store, signal: Signal, detection: Detection, changes: seq<Evidence>, now: int)
    : (Store, Outcome)
  {
    var incident := NewIncident(signal, detection, changes, now);
    var i := |s.incidents|;
    if RealAsset(signal.assetId) && c.realActionsMode == "observe_only" then
      (s.(incidents := s.incidents + [incident]), Outcome(Some(i), None))
    else
      var waiting := incident.WaitForApproval(now);
      (s.(incidents := s.incidents + [waiting.value], plans := s.plans + [NewPlan(i, signal, now)]),
       Outcome(Some(i), Some(|s.plans|)))
  }

  function NewPlan(i: nat, signal: Signal, now: int): Plan {
    Plan(i, "重启 " + signal.assetId + " 并验证健康状态", DefaultSteps(signal.assetId), now, now + PLAN_LIFETIME, Pending)
  }

  /** Without a correlation service no change is cited and nothing matches. */
  function Known(c: Config, events: ChangeLog): ChangeLog {
    if c.correlates then events else []
  }

  function Matching(c: Config, signal: Signal, incidents: seq<Incident>): Option<Match> {
    if c.correlates then FindMatch(signal, incidents, c.edges) else None
  }

  function EvaluateSignal(c: Config, s: Store, signal: Signal, detection: Detection, events: ChangeLog, now: int)
    : (Store, Outcome)
  {
    if !detection.anomalous then (s, Outcome(None, None))
    else
      var changes := ChangeEvidence(signal, Known(c, events));
      var found := Matching(c, signal, s.incidents);
      if found.Some? then
        MergeSignal(s, found.value.incident, signal, Discounted(Confidence(detection.score), found.value.score),
                    changes, now)
      else
        OpenIncident(c, s, signal, detection, changes, now)
  }

  // ---- approval and execution --------------------------------------------------------------

  function RealSteps(steps: seq<Remediation.Step>): seq<Remediation.Step> {
    if steps == [] then []
    else RealSteps(steps[..|steps| - 1]) + if RealAsset(steps[|steps| - 1].target) then [steps[|steps| - 1]] else []
  }

  predicate Permitted(c: Config, steps: seq<Remediation.Step>) {
    var gated := RealSteps(steps);
    gated == []
    || (c.realActionsMode != "observe_only"
        && forall k :: 0 <= k < |gated| ==>
             gated[k].actionType in {"health_check", "collect_logs", "inspect_container"})
  }

  /** Where a run leaves its plan and its incident. */
  function PlanAfter(status: Remediation.RunStatus): PlanStatus {
    match status
    case RunRunning => Executing
    case RunSucceeded => Succeeded
    case _ => PlanFailed
  }

  function IncidentAfter(status: Remediation.RunStatus): Status {
    match status
    case RunRunning => Remediating
    case RunSucceeded => Resolved
    case _ => Failed
  }

  /** One whole call: a refusal; approval, execution and settlement together; or, when a call made on the
    * way raises, approval and execution without settlement.
    */
  function Approve(c: Config, s: Store, w: Remediation.World, planId: nat, approver: string, approvedHash: string,
                   key: string, now: int)
    : (Store, Result<nat, ServiceError>)
  {
    if key in s.actionKeys then (s, Ok(s.actionKeys[key]))
    else if planId >= |s.plans| || s.plans[planId].incident >= |s.incidents| then (s, Err(NotFound))
    else
      var plan := s.plans[planId];
      var incident := s.incidents[plan.incident];
      if !Permitted(c, plan.steps) then (s, Err(IntegrityViolation))
      else if plan.status != Pending then (s, Err(InvalidTransition))
      else if now > plan.expiresAt then (s.(plans := s.plans[planId := plan.(status := Expired)]), Err(ApprovalExpired))
      else if approvedHash != c.contentHash(plan.Content()) then (s, Err(IntegrityViolation))
      else
        var approved := s.(approvals := s.approvals + [Approval(planId, approver, approvedHash, now)],
                           plans := s.plans[planId := plan.(status := Approved)]);
        var started := incident.StartRemediation(now);
        if started.Err? then (approved, Err(started.error))
        else
          var x := Remediation.Execute(w, [], plan.steps, incident.assetId);
          var cut := x.status.RunRunning?;
          var run := ActionRun(planId, plan.incident, key, approvedHash, x.status, if cut then [] else x.sent, now);
          (approved.(runs := s.runs + [run],
                     actionKeys := s.actionKeys[key := |s.runs|],
                     plans := s.plans[planId := plan.(status := PlanAfter(x.status))],
                     incidents := s.incidents[plan.incident :=
                       if cut then started.value else started.value.Finish(x.status.RunSucceeded?, now).value]),
           if cut then Err(CallRaised) else Ok(|s.runs|))
  }

  // ---- monitoring --------------------------------------------------------------------------

  predicate Tracks(incident: Incident, ruleId: string, assetId: string) {
    incident.assetId == assetId && incident.Active() && incident.Cites(MonitorQuery(ruleId))
  }

  /** First incident of the listing that tracks the rule on the asset. */
  function FirstTracking(incidents: seq<Incident>, listing: seq<nat>, ruleId: string, assetId: string): (r: Option<nat>)
    requires forall k :: 0 <= k < |listing| ==> listing[k] < |incidents|
    ensures r.Some? ==> r.value in listing && Tracks(incidents[r.value], ruleId, assetId)
    ensures r.None? ==> forall i :: i in listing ==> !Tracks(incidents[i], ruleId, assetId)
  {
    if listing == [] then None
    else if Tracks(incidents[listing[0]], ruleId, assetId) then Some(listing[0])
    else FirstTracking(incidents, listing[1..], ruleId, assetId)
  }

  function ObservedIncident(rule: Rule, assetId: string, now: int): Incident {
    Incident(assetId, rule.severity, Open, now, now,
             [Evidence("monitor-rule", MonitorQuery(rule.id), now - 1000 * rule.windowSeconds, now)],
             [Hypothesis(assetId, 0.8, 0)])
  }

  /** Opens an incident when an alert has none, and resolves it after enough healthy cycles. An
    * incident that cannot be resolved is left alone, as the raised error leaves it.
    */
  function UpdateIncident(s: Store, rule: Rule, assetId: string, state: RuleState, breached: bool, now: int): Store {
    var active := FirstTracking(s.incidents, ListIncidents(s.incidents), rule.id, assetId);
    if StateName(state, breached) == "alerting" && active.None? then
      s.(incidents := s.incidents + [ObservedIncident(rule, assetId, now)])
    else if active.Some? && StateName(state, breached) == "healthy" && state.recoveryStreak >= rule.recoveryCycles then
      var resolved := s.incidents[active.value].ResolveObservation(now);
      if resolved.Ok? then s.(incidents := s.incidents[active.value := resolved.value]) else s
    else s
  }

  function EvaluateRule(s: Store, rule: Rule, assetId: string, breached: bool, now: int): Store {
    var key := (rule.id, assetId);
    var state := Observe(rule, StateAt(s.states, key), breached);
    UpdateIncident(s.(states := s.states[key := state]), rule, assetId, state, breached, now)
  }

  predicate Breached(s: Store, rule: Rule, assetId: string, sample: real, now: int) {
    Compare(ValueOf(rule, SamplesAt(s.samples, (rule.id, assetId)), sample, now), rule.operator, rule.threshold)
  }

  /** One sample of one metric under one rule. */
  function Measure(s: Store, rule: Rule, assetId: string, sample: real, now: int): Store {
    EvaluateRule(s.(samples := Remember(rule, s.samples, assetId, sample, now)), rule, assetId,
                 Breached(s, rule, assetId, sample, now), now)
  }

  // ---- the services over the store they share ----------------------------------------------

  method MergeByLoop(incident: Incident, signal: Signal, score: real, changes: seq<Evidence>, now: int)
    returns (merged: Incident)
    ensures merged == Merge(incident, signal, score, changes, now)
  {
    var fresher := [];
    for n := 0 to |changes|
      invariant fresher == NewQueries(incident, changes[..n])
    {
      assert changes[..n + 1][..n] == changes[..n];
      if !incident.Cites(changes[n].query) {
        fresher := fresher + [changes[n]];
      }
    }
    assert changes[..|changes|] == changes;
    merged := incident.(evidence := incident.evidence + [MetricEvidence(signal)] + fresher, updatedAt := now);
    if !Suspects(incident, signal.assetId) {
      merged := merged.(hypotheses := merged.hypotheses + [Hypothesis(signal.assetId, score, |incident.evidence|)]);
    }
  }

  method FindActiveByLoop(incidents: seq<Incident>, ruleId: string, assetId: string) returns (active: Option<nat>)
    ensures active == FirstTracking(incidents, ListIncidents(incidents), ruleId, assetId)
    ensures active.Some? <==> exists i :: 0 <= i < |incidents| && Tracks(incidents[i], ruleId, assetId)
  {
    var listing := ListIncidents(incidents);
    active := None;
    var n := 0;
    while n < |listing| && active.None?
      invariant 0 <= n <= |listing|
      invariant FirstTracking(incidents, listing, ruleId, assetId)
                == if active.Some? then active else FirstTracking(incidents, listing[n..], ruleId, assetId)
      decreases |listing| - n, active.None?
    {
      assert listing[n..][1..] == listing[n + 1..];
      if Tracks(incidents[listing[n]], ruleId, assetId) {
        active := Some(listing[n]);
      }
      n := n + 1;
    }
    if i :| 0 <= i < |incidents| && Tracks(incidents[i], ruleId, assetId) { assert i in listing; }
  }

  class ControlPlane {
    const config: Config
    var incidents: seq<Incident>
    var plans: seq<Plan>
    var approvals: seq<Approval>
    var runs: seq<ActionRun>
    var actionKeys: map<string, nat>
    const monitoring: MonitoringService

    constructor (config: Config)
      ensures this.config == config && fresh(monitoring) && Value() == EMPTY
    {
      this.config := config;
      incidents, plans, approvals, runs, actionKeys := [], [], [], [], map[];
      monitoring := new MonitoringService();
    }

    function Value(): Store
      reads this, monitoring
    {
      Store(incidents, plans, approvals, runs, actionKeys, monitoring.states, monitoring.history)
    }

    method Evaluate(signal: Signal, detection: Detection, events: ChangeLog, now: int) returns (r: Outcome)
      modifies this
      ensures (Value(), r) == EvaluateSignal(config, old(Value()), signal, detection, events, now)
    {
      if !detection.anomalous {
        return Outcome(None, None);
      }
      var changes := ChangeEvidenceByLoops(signal, Known(config, events));
      var found := None;
      if config.correlates {
        found := FindMatchByLoops(signal, incidents, config.edges);
      }
      if found.Some? {
        r := MergeInto(found.value.incident, signal, Discounted(Confidence(detection.score), found.value.score),
                       changes, now);
      } else {
        r := Open(signal, detection, changes, now);
      }
    }

    method MergeInto(i: nat, signal: Signal, score: real, changes: seq<Evidence>, now: int) returns (r: Outcome)
      requires i < |incidents|
      modifies this
      ensures (Value(), r) == MergeSignal(old(Value()), i, signal, score, changes, now)
    {
      var merged := MergeByLoop(incidents[i], signal, score, changes, now);
      incidents := incidents[i := merged];
      r := Outcome(Some(i), PlanOf(plans, i));
    }

    method Open(signal: Signal, detection: Detection, changes: seq<Evidence>, now: int) returns (r: Outcome)
      modifies this
      ensures (Value(), r) == OpenIncident(config, old(Value()), signal, detection, changes, now)
    {
      var incident := NewIncident(signal, detection, changes, now);
      var i := |incidents|;
      if RealAsset(signal.assetId) && config.realActionsMode == "observe_only" {
        incidents := incidents + [incident];
        return Outcome(Some(i), None);
      }
      var waiting := incident.WaitForApproval(now);
      incidents := incidents + [waiting.value];
      plans := plans + [NewPlan(i, signal, now)];
      r := Outcome(Some(i), Some(|plans| - 1));
    }

    method ApproveAndExecute(world: Remediation.World, planId: nat, approver: string, approvedHash: string, key: string,
                             now: int)
      returns (r: Result<nat, ServiceError>)
      modifies this
      ensures (Value(), r) == Approve(config, old(Value()), world, planId, approver, approvedHash, key, now)
    {
      if key in actionKeys {
        return Ok(actionKeys[key]);
      }
      if planId >= |plans| {
        return Err(NotFound);
      }
      var plan := plans[planId];
      if plan.incident >= |incidents| {
        return Err(NotFound);
      }
      var incident := incidents[plan.incident];
      if !Permitted(config, plan.steps) {
        return Err(IntegrityViolation);
      }
      if plan.status != Pending {
        return Err(InvalidTransition);
      }
      if now > plan.expiresAt {
        plans := plans[planId := plan.(status := Expired)];
        return Err(ApprovalExpired);
      }
      var actualHash := config.contentHash(plan.Content());
      if approvedHash != actualHash {
        return Err(IntegrityViolation);
      }
      approvals := approvals + [Approval(planId, approver, actualHash, now)];
      plans := plans[planId := plan.(status := Approved)];
      var started := incident.StartRemediation(now);
      if started.Err? {
        return Err(started.error);
      }
      incidents := incidents[plan.incident := started.value];
      var run := ActionRun(planId, plan.incident, key, actualHash, Remediation.RunRunning, [], now);
      runs := runs + [run];
      actionKeys := actionKeys[key := |runs| - 1];
      plans := plans[planId := plan.(status := Executing)];
      assert plans == old(plans)[planId := plan.(status := Executing)];
      var executor := new Remediation.Executor(world);
      var status := executor.Run(plan.steps, incident.assetId);
      if status.RunRunning? {
        return Err(CallRaised);
      }
      Settle(|runs| - 1, status, executor.sent, now);
      r := Ok(|runs| - 1);
      assert runs == old(runs) + [run.(status := status, sent := executor.sent)];
      assert plans == old(plans)[planId := plan.(status := PlanAfter(status))];
      assert incidents == old(incidents)[plan.incident := started.value.Finish(status.RunSucceeded?, now).value];
    }

    /** The end of a run, with the end states of its plan and incident. */
    method Settle(r: nat, status: Remediation.RunStatus, sent: seq<Remediation.Step>, now: int)
      requires r < |runs| && runs[r].plan < |plans| && runs[r].incident < |incidents|
      requires incidents[runs[r].incident].status == Remediating && !status.RunRunning?
      modifies this
      ensures var run := old(runs[r]);
              && runs == old(runs)[r := run.(status := status, sent := sent)]
              && plans == old(plans)[run.plan := old(plans)[run.plan].(status := PlanAfter(status))]
              && incidents == old(incidents)[run.incident :=
                   old(incidents)[run.incident].Finish(status.RunSucceeded?, now).value]
      ensures approvals == old(approvals) && actionKeys == old(actionKeys)
    {
      var run, succeeded := runs[r], status.RunSucceeded?;
      runs := runs[r := run.(status := status, sent := sent)];
      plans := plans[run.plan := plans[run.plan].(status := if succeeded then Succeeded else PlanFailed)];
      incidents := incidents[run.incident := incidents[run.incident].Finish(succeeded, now).value];
    }

    /** One metric under one rule; answers the compared value. */
    method EvaluateMetric(rule: Rule, assetId: string, sample: real, now: int) returns (value: real)
      modifies this, monitoring
      ensures Value() == Measure(old(Value()), rule, assetId, sample, now)
      ensures var key := (rule.id, assetId);
              key in monitoring.states
              && (monitoring.states[key].breachStreak > 0 <==> Past(value, rule.operator, rule.threshold))
      ensures rule.operator != "increase_gte" ==> value == sample && monitoring.history == old(monitoring.history)
      ensures rule.operator == "increase_gte" ==>
                var key := (rule.id, assetId);
                var before := if key in old(monitoring.history) then old(monitoring.history)[key] else [];
                var deque := Evict(before + [Sample(now, sample)], now - 1000 * rule.windowSeconds);
                monitoring.history == old(monitoring.history)[key := deque] && value == sample - deque[0].value
    {
      value := monitoring.RuleValue(rule, assetId, sample, now);
      var evaluation := monitoring.EvaluateOne(rule, assetId, value, now);
      var active := FindActiveByLoop(incidents, rule.id, assetId);
      if evaluation.state == "alerting" && active.None? {
        incidents := incidents + [ObservedIncident(rule, assetId, now)];
      } else if active.Some? && evaluation.state == "healthy" && evaluation.recoveryStreak >= rule.recoveryCycles {
        var resolved := incidents[active.value].ResolveObservation(now);
        if resolved.Ok? {
          incidents := incidents[active.value := resolved.value];
        }
      }
    }
  }
}
