/** What one request does to the control plane, in the terms of the request itself: which plans exist and
  * which of them may run, what a signal leaves behind, and which readings raise an alert.
  */
module ServiceTheorems {
  import opened Outcomes
  import opened Numbers
  import opened Monitoring
  import opened Incidents
  import opened ControlPlaneCore
  import opened SystemRuns
  import opened SystemTheorems
  import Remediation

  // ---- the gate for real assets ------------------------------------------------------------

  ghost predicate RealTarget(target: string) {
    "host/" <= target || "docker/devops-lab/" <= target
  }

  /** A step on a real target is forbidden in observation mode, and in any mode unless it only looks. */
  ghost predicate Forbidden(mode: string, step: Remediation.Step) {
    && RealTarget(step.target)
    && (mode == "observe_only"
        || !(step.actionType == "health_check" || step.actionType == "collect_logs"
             || step.actionType == "inspect_container"))
  }

  lemma {:induction false} RealStepsSelect(steps: seq<Remediation.Step>)
    ensures forall x :: x in RealSteps(steps) <==> x in steps && RealTarget(x.target)
  {
    if steps != [] {
      var n := |steps| - 1;
      RealStepsSelect(steps[..n]);
      assert steps == steps[..n] + [steps[n]];
    }
  }

  lemma PermittedExactly(c: Config, steps: seq<Remediation.Step>)
    ensures Permitted(c, steps) <==> forall x :: x in steps ==> !Forbidden(c.realActionsMode, x)
  {
    RealStepsSelect(steps);
    var gated := RealSteps(steps);
    assert forall k :: 0 <= k < |gated| ==> gated[k] in gated;
    if forall x :: x in steps ==> !Forbidden(c.realActionsMode, x) {
      if gated != [] { assert gated[0] in steps && !Forbidden(c.realActionsMode, gated[0]); }
      forall k | 0 <= k < |gated|
        ensures gated[k].actionType in {"health_check", "collect_logs", "inspect_container"}
      {
        assert gated[k] in steps && !Forbidden(c.realActionsMode, gated[k]);
      }
    } else {
      var x :| x in steps && Forbidden(c.realActionsMode, x);
      assert x in gated;
      var k :| 0 <= k < |gated| && gated[k] == x;
      assert c.realActionsMode == "observe_only"
          || gated[k].actionType !in {"health_check", "collect_logs", "inspect_container"};
    }
  }

  /** What a request under a new key is answered, check by check, in every reachable state: it is granted
    * exactly when its plan is pending, unexpired, of the approved content and without a forbidden step.
    */
  lemma GrantedExactly(c: Config, es: seq<Event>, w: Remediation.World, p: nat, approver: string, hash: string,
                       key: string, now: int)
    requires RulesNamed(c) && NamespaceReserved(c) && key !in Run(c, es).actionKeys
    ensures var s := Run(c, es);
            var r := Approve(c, s, w, p, approver, hash, key, now).1;
            if p >= |s.plans| then r == Err(NotFound)
            else
              var plan := s.plans[p];
              if exists x :: x in plan.steps && Forbidden(c.realActionsMode, x) then r == Err(IntegrityViolation)
              else if plan.status != Pending then r == Err(InvalidTransition)
              else if now > plan.expiresAt then r == Err(ApprovalExpired)
              else if hash != c.contentHash(PlanContent(plan.incident, plan.summary, plan.steps)) then
                r == Err(IntegrityViolation)
              else Granted(r)
  {
    InvariantHolds(c, es);
    var s := Run(c, es);
    if p < |s.plans| { PermittedExactly(c, s.plans[p].steps); }
  }

  /** Approval saves who approved what and when, the run under its key, and changes no other plan, no
    * other incident, and of those two the status and the time of the update only.
    */
  lemma GrantedSaves(c: Config, es: seq<Event>, w: Remediation.World, p: nat, approver: string, hash: string,
                     key: string, now: int)
    requires RulesNamed(c) && NamespaceReserved(c) && key !in Run(c, es).actionKeys
    requires Granted(Approve(c, Run(c, es), w, p, approver, hash, key, now).1)
    ensures var s := Run(c, es);
            var s' := Approve(c, s, w, p, approver, hash, key, now).0;
            && Executed(c, s, s', w, p, hash, now)
            && s'.approvals == s.approvals + [Approval(p, approver, hash, now)]
            && s'.runs[..|s.runs|] == s.runs
            && s'.runs[|s.runs|].idempotencyKey == key && s'.runs[|s.runs|].approvedHash == hash
            && s'.runs[|s.runs|].createdAt == now && s'.actionKeys == s.actionKeys[key := |s.runs|]
            && s'.states == s.states && s'.samples == s.samples
            && s'.plans == s.plans[p := s.plans[p].(status := s'.plans[p].status)]
            && var i := s.plans[p].incident;
            && s'.incidents == s.incidents[i := s.incidents[i].(status := s'.incidents[i].status, updatedAt := now)]
  {
    NoApprovalWithoutRun(c, es, w, p, approver, hash, key, now);
  }

  // ---- which plans there are ---------------------------------------------------------------

  /** Restart, then check, one asset; nothing to compensate. */
  ghost predicate RestartsThenChecks(steps: seq<Remediation.Step>, assetId: string) {
    && |steps| == 2
    && steps[0].actionType == "restart_container" && steps[0].target == assetId
    && steps[0].arguments == map["grace_seconds" := "10"]
    && steps[1].actionType == "health_check" && steps[1].target == assetId && steps[1].arguments == map[]
    && steps[0].rollbackAction.None? && steps[1].rollbackAction.None?
    && steps[0].rollbackArguments == map[] && steps[1].rollbackArguments == map[]
    && steps[0].expectedResult == "容器恢复运行且 HTTP 健康检查通过" && steps[1].expectedResult == "容器状态为 running"
  }

  ghost predicate PlanFits(c: Config, s: Store, plan: Plan) {
    && plan.incident < |s.incidents| && plan.expiresAt == plan.createdAt + 600000
    && var assetId := s.incidents[plan.incident].assetId;
    && RestartsThenChecks(plan.steps, assetId) && plan.summary == "重启 " + assetId + " 并验证健康状态"
    && !(RealTarget(assetId) && c.realActionsMode == "observe_only")
  }

  ghost predicate PlansFit(c: Config, s: Store) {
    forall p :: 0 <= p < |s.plans| ==> PlanFits(c, s, s.plans[p])
  }

  /** Incidents keep their assets and plans their content. */
  ghost predicate SameAssets(s: Store, s': Store) {
    && |s.incidents| <= |s'.incidents| && |s.plans| <= |s'.plans|
    && (forall i :: 0 <= i < |s.incidents| ==> s'.incidents[i].assetId == s.incidents[i].assetId)
    && (forall p :: 0 <= p < |s.plans| ==> s'.plans[p].(status := s.plans[p].status) == s.plans[p])
  }

  lemma SameAssetsFit(c: Config, s: Store, s': Store)
    requires PlansFit(c, s) && SameAssets(s, s')
    ensures forall p :: 0 <= p < |s.plans| ==> PlanFits(c, s', s'.plans[p])
  {
    forall p | 0 <= p < |s.plans| ensures PlanFits(c, s', s'.plans[p]) { assert PlanFits(c, s, s.plans[p]); }
  }

  lemma SignalKeepsPlansFit(c: Config, s: Store, signal: Signal, detection: Detection, events: ChangeLog, now: int)
    requires PlansFit(c, s)
    ensures PlansFit(c, EvaluateSignal(c, s, signal, detection, events, now).0)
  {
    var s' := EvaluateSignal(c, s, signal, detection, events, now).0;
    if detection.anomalous {
      var changes, found := ChangeEvidence(signal, Known(c, events)), Matching(c, signal, s.incidents);
      if found.Some? {
        MatchIsActive(signal, s.incidents, c.edges);
        SameAssetsFit(c, s, s');
      } else {
        OpenKeepsPlansFit(c, s, signal, detection, changes, now);
      }
    }
  }

  lemma OpenKeepsPlansFit(c: Config, s: Store, signal: Signal, detection: Detection, changes: seq<Evidence>, now: int)
    requires PlansFit(c, s)
    ensures PlansFit(c, OpenIncident(c, s, signal, detection, changes, now).0)
  {
    var s' := OpenIncident(c, s, signal, detection, changes, now).0;
    assert s'.incidents[..|s.incidents|] == s.incidents && s'.plans[..|s.plans|] == s.plans;
    SameAssetsFit(c, s, s');
    DefaultStepsFit(signal.assetId);
  }

  lemma DefaultStepsFit(assetId: string)
    ensures RestartsThenChecks(DefaultSteps(assetId), assetId)
  {
  }

  lemma ApprovalKeepsAssets(c: Config, s: Store, w: Remediation.World, p: nat, approver: string, hash: string,
                            key: string, now: int)
    ensures SameAssets(s, Approve(c, s, w, p, approver, hash, key, now).0)
  {
    ApprovalPreservesPlans(c, s, w, p, approver, hash, key, now);
    ApprovalPreservesIncidents(c, s, w, p, approver, hash, key, now);
  }

  lemma MeasureKeepsAssets(s: Store, rule: Rule, a: string, sample: real, now: int)
    ensures SameAssets(s, Measure(s, rule, a, sample, now))
  {
  }

  lemma StepKeepsPlansFit(c: Config, s: Store, e: Event)
    requires PlansFit(c, s)
    ensures PlansFit(c, Step(c, s, e))
  {
    match e
    case Signalled(signal, detection, events, now) => SignalKeepsPlansFit(c, s, signal, detection, events, now);
    case ApprovalRequested(w, planId, approver, hash, key, now) =>
      ApprovalKeepsAssets(c, s, w, planId, approver, hash, key, now);
      SameAssetsFit(c, s, Step(c, s, e));
    case Measured(ruleId, assetId, sample, now) =>
      if ruleId in c.rules { MeasureKeepsAssets(s, c.rules[ruleId], assetId, sample, now); }
      SameAssetsFit(c, s, Step(c, s, e));
    case Restarted => SameAssetsFit(c, s, Step(c, s, e));
  }

  /** In every reachable state each plan restarts its incident's asset, then checks it, compensates
    * nothing, and lives ten minutes; a real asset has no plan in observation mode.
    */
  lemma {:induction false} PlansRestartThenCheck(c: Config, es: seq<Event>)
    ensures PlansFit(c, Run(c, es))
  {
    if |es| > 0 {
      PlansRestartThenCheck(c, es[..|es| - 1]);
      StepKeepsPlansFit(c, Run(c, es[..|es| - 1]), es[|es| - 1]);
    }
  }

  /** So nothing is ever sent to a real asset, in whatever mode: its plans restart it, and are refused. */
  lemma RealAssetsUntouched(c: Config, es: seq<Event>, w: Remediation.World, p: nat, approver: string, hash: string,
                            key: string, now: int)
    requires RulesNamed(c) && NamespaceReserved(c) && key !in Run(c, es).actionKeys
    requires Granted(Approve(c, Run(c, es), w, p, approver, hash, key, now).1)
    ensures var s := Run(c, es);
            && p < |s.plans| && s.plans[p].incident < |s.incidents|
            && var assetId := s.incidents[s.plans[p].incident].assetId;
            && !RealTarget(assetId)
            && forall x :: x in Remediation.Execute(w, [], s.plans[p].steps, assetId).sent ==> !RealTarget(x.target)
  {
    var s := Run(c, es);
    GrantedExactly(c, es, w, p, approver, hash, key, now);
    PlansRestartThenCheck(c, es);
    assert PlanFits(c, s, s.plans[p]);
    AllowedIsNotReal(c, w, s.plans[p].steps, s.incidents[s.plans[p].incident].assetId);
  }

  lemma AllowedIsNotReal(c: Config, w: Remediation.World, steps: seq<Remediation.Step>, assetId: string)
    requires RestartsThenChecks(steps, assetId) && forall x :: x in steps ==> !Forbidden(c.realActionsMode, x)
    ensures !RealTarget(assetId)
    ensures forall x :: x in Remediation.Execute(w, [], steps, assetId).sent ==> !RealTarget(x.target)
  {
    assert steps[0] in steps;
    SendsOnlyPlan(w, steps, assetId);
  }

  lemma SendsOnlyPlan(w: Remediation.World, steps: seq<Remediation.Step>, assetId: string)
    requires RestartsThenChecks(steps, assetId)
    ensures forall x :: x in Remediation.Execute(w, [], steps, assetId).sent ==> x in steps
  {
    var x := Remediation.Execute(w, [], steps, assetId);
    Remediation.ExecutionShape(w, [], steps, assetId);
    var n :| 0 <= n <= |steps| && Remediation.Shape(w, [], steps, assetId, x, n);
    NothingToUndo(steps[..n]);
    assert x.sent == Remediation.Forward(steps, n);
  }

  lemma {:induction false} NothingToUndo(steps: seq<Remediation.Step>)
    requires forall k :: 0 <= k < |steps| ==> steps[k].rollbackAction.None?
    ensures Remediation.Undo(steps) == []
  {
    if steps != [] { NothingToUndo(steps[1..]); }
  }

  // ---- what a signal leaves behind ---------------------------------------------------------

  function Capped(score: real): real {
    MinReal(score / 10.0, 1.0)
  }

  ghost predicate IsMetricEvidence(e: Evidence, signal: Signal) {
    && e.source == "prometheus" && e.query == signal.name + "{asset_id=\"" + signal.assetId + "\"}"
    && e.startedAt == signal.occurredAt - 300000 && e.endedAt == signal.occurredAt
  }

  /** Exactly the changes whose query is not cited yet, in their order. */
  ghost predicate Uncited(before: Incident, changes: seq<Evidence>, added: seq<Evidence>) {
    && (forall e :: e in added
          <==> e in changes && !(exists k :: 0 <= k < |before.evidence| && before.evidence[k].query == e.query))
    && (forall i, j :: 0 <= i < j < |added| ==>
          added[i].startedAt >= added[j].startedAt && added[i].query != added[j].query)
  }

  /** The old incident with more evidence, a hypothesis for an asset that had none, and a new time. */
  ghost predicate Merged(before: Incident, after: Incident, signal: Signal, score: real, changes: seq<Evidence>,
                         now: int) {
    var n := |before.evidence|;
    && after.(evidence := before.evidence, hypotheses := before.hypotheses, updatedAt := before.updatedAt) == before
    && after.updatedAt == now
    && |after.evidence| > n && after.evidence[..n] == before.evidence && IsMetricEvidence(after.evidence[n], signal)
    && Uncited(before, changes, after.evidence[n + 1..])
    && after.hypotheses
       == before.hypotheses
          + if exists h :: h in before.hypotheses && h.assetId == signal.assetId then []
            else [Hypothesis(signal.assetId, score, n)]
  }

  lemma {:induction false} NewQueriesKeepOrder(before: Incident, changes: seq<Evidence>)
    requires forall i, j :: 0 <= i < j < |changes| ==>
               changes[i].startedAt >= changes[j].startedAt && changes[i].query != changes[j].query
    ensures Uncited(before, changes, NewQueries(before, changes))
  {
    if changes != [] {
      var n := |changes| - 1;
      var front, added := changes[..n], NewQueries(before, changes[..n]);
      NewQueriesKeepOrder(before, front);
      assert changes == front + [changes[n]];
      forall e | e in added ensures e.startedAt >= changes[n].startedAt && e.query != changes[n].query {
        assert e in front;
        var k :| 0 <= k < n && front[k] == e;
        assert changes[k] == e;
      }
      UncitedAppend(before, front, added, changes[n]);
    }
  }

  lemma UncitedAppend(before: Incident, changes: seq<Evidence>, added: seq<Evidence>, e: Evidence)
    requires Uncited(before, changes, added)
    requires forall x :: x in added ==> x.startedAt >= e.startedAt && x.query != e.query
    ensures Uncited(before, changes + [e], added + if before.Cites(e.query) then [] else [e])
  {
    assert forall i :: 0 <= i < |added| ==> added[i] in added;
  }

  lemma MergeMeans(before: Incident, signal: Signal, score: real, events: ChangeLog, now: int)
    ensures Merged(before, Merge(before, signal, score, ChangeEvidence(signal, events), now), signal, score,
                   ChangeEvidence(signal, events), now)
  {
    var changes := ChangeEvidence(signal, events);
    EvidenceIsOfNewestChanges(signal, events);
    NewQueriesKeepOrder(before, changes);
    EvidenceParts(before.evidence, MetricEvidence(signal), NewQueries(before, changes));
    SuspectsMeans(before, signal.assetId);
  }

  lemma EvidenceParts(before: seq<Evidence>, e: Evidence, added: seq<Evidence>)
    ensures var all, n := before + [e] + added, |before|;
            |all| > n && all[..n] == before && all[n] == e && all[n + 1..] == added
  {
  }

  lemma SuspectsMeans(incident: Incident, assetId: string)
    ensures Suspects(incident, assetId) <==> exists h :: h in incident.hypotheses && h.assetId == assetId
  {
    if Suspects(incident, assetId) {
      var h :| 0 <= h < |incident.hypotheses| && incident.hypotheses[h].assetId == assetId;
      assert incident.hypotheses[h] in incident.hypotheses;
    }
  }

  /** A normal signal changes nothing. An anomalous one joins the matching incident and no other. */
  lemma SignalJoins(c: Config, s: Store, signal: Signal, detection: Detection, events: ChangeLog, now: int)
    ensures var (s', r) := EvaluateSignal(c, s, signal, detection, events, now);
            && (!detection.anomalous ==> s' == s && r == Outcome(None, None))
            && (detection.anomalous && c.correlates && FindMatch(signal, s.incidents, c.edges).Some? ==>
                  var m := FindMatch(signal, s.incidents, c.edges).value;
                  Joined(s, s', r, m.incident, signal, Capped(detection.score) * m.score, events, now))
  {
    if detection.anomalous && c.correlates && FindMatch(signal, s.incidents, c.edges).Some? {
      var m := FindMatch(signal, s.incidents, c.edges).value;
      var score := SignalMerges(c, s, signal, detection, events, now);
      JoinMeans(s, m.incident, signal, score, events, now);
    }
  }

  lemma SignalMerges(c: Config, s: Store, signal: Signal, detection: Detection, events: ChangeLog, now: int)
    returns (score: real)
    requires detection.anomalous && c.correlates && FindMatch(signal, s.incidents, c.edges).Some?
    ensures var m := FindMatch(signal, s.incidents, c.edges).value;
            && m.incident < |s.incidents| && score == Capped(detection.score) * m.score
            && EvaluateSignal(c, s, signal, detection, events, now)
               == MergeSignal(s, m.incident, signal, score, ChangeEvidence(signal, events), now)
  {
    MatchIsActive(signal, s.incidents, c.edges);
    score := MatchedScore(signal, s.incidents, c.edges, detection.score);
  }

  lemma JoinMeans(s: Store, i: nat, signal: Signal, score: real, events: ChangeLog, now: int)
    requires i < |s.incidents|
    ensures Joined(s, MergeSignal(s, i, signal, score, ChangeEvidence(signal, events), now).0,
                   MergeSignal(s, i, signal, score, ChangeEvidence(signal, events), now).1, i, signal, score, events,
                       now)
  {
    MergeMeans(s.incidents[i], signal, score, events, now);
    PlanOfIsNewest(s.plans, i);
  }

  /** The signal joins incident `i`, whose newest plan is reported, and changes nothing else. */
  ghost predicate Joined(s: Store, s': Store, r: Outcome, i: nat, signal: Signal, score: real, events: ChangeLog,
                         now: int) {
    && i < |s.incidents| && i < |s'.incidents|
    && s' == s.(incidents := s.incidents[i := s'.incidents[i]])
    && Merged(s.incidents[i], s'.incidents[i], signal, score, ChangeEvidence(signal, events), now)
    && r.incident == Some(i)
    && (r.plan.Some? <==> exists p :: 0 <= p < |s.plans| && s.plans[p].incident == i)
    && (r.plan.Some? ==>
          && r.plan.value < |s.plans| && s.plans[r.plan.value].incident == i
          && forall p :: 0 <= p < |s.plans| && s.plans[p].incident == i ==>
               s.plans[p].createdAt <= s.plans[r.plan.value].createdAt)
  }

  lemma MatchedScore(signal: Signal, incidents: seq<Incident>, edges: seq<Edge>, x: real) returns (score: real)
    requires FindMatch(signal, incidents, edges).Some?
    ensures var m := FindMatch(signal, incidents, edges).value;
            && m.score in {1.0, 0.7}
            && score == Discounted(Confidence(x), m.score) == Capped(x) * m.score
  {
    var m := FindMatch(signal, incidents, edges).value;
    MatchPrefersOwnAsset(signal, incidents, edges);
    score := Discounted(Confidence(x), m.score);
    DiscountedIsProduct(Confidence(x), m.score);
  }

  lemma {:induction false} PlanOfIsNewest(plans: seq<Plan>, incident: nat)
    ensures var r := PlanOf(plans, incident);
            && (r.Some? <==> exists p :: 0 <= p < |plans| && plans[p].incident == incident)
            && (r.Some? ==>
                  forall p :: 0 <= p < |plans| && plans[p].incident == incident ==>
                    plans[p].createdAt <= plans[r.value].createdAt)
  {
    if plans != [] {
      var n := |plans| - 1;
      PlanOfIsNewest(plans[..n], incident);
      forall p | 0 <= p < n ensures plans[..n][p] == plans[p] {}
    }
  }

  /** An anomalous signal without a match opens one incident, waiting with one pending plan, or open and
    * without a plan when a real asset is only observed.
    */
  lemma SignalOpens(c: Config, s: Store, signal: Signal, detection: Detection, events: ChangeLog, now: int)
    requires detection.anomalous && (!c.correlates || FindMatch(signal, s.incidents, c.edges).None?)
    ensures var (s', r) := EvaluateSignal(c, s, signal, detection, events, now);
            var observed := RealTarget(signal.assetId) && c.realActionsMode == "observe_only";
            var n, i := |s.plans|, |s.incidents|;
            && |s'.incidents| == i + 1 && |s'.plans| == n + (if observed then 0 else 1)
            && s' == s.(incidents := s.incidents + [s'.incidents[i]], plans := s.plans + s'.plans[n..])
            && var after := s'.incidents[i];
            && after.assetId == signal.assetId
            && after.severity == (if detection.score >= 5.0 then "high" else "medium")
            && after.status == (if observed then Open else WaitingApproval)
            && after.createdAt == now && after.updatedAt == now
            && after.hypotheses == [Hypothesis(signal.assetId, Capped(detection.score), 0)]
            && |after.evidence| > 0 && IsMetricEvidence(after.evidence[0], signal)
            && after.evidence[1..] == ChangeEvidence(signal, if c.correlates then events else [])
            && r == Outcome(Some(i), if observed then None else Some(n))
            && (!observed ==>
                  && s'.plans[n].incident == i && s'.plans[n].status == Pending
                  && s'.plans[n].createdAt == now && s'.plans[n].expiresAt == now + 600000
                  && s'.plans[n].summary == "重启 " + signal.assetId + " 并验证健康状态"
                  && RestartsThenChecks(s'.plans[n].steps, signal.assetId))
  {
    var s' := EvaluateSignal(c, s, signal, detection, events, now).0;
    assert s'.plans[|s.plans|..] == if |s'.plans| == |s.plans| then [] else [s'.plans[|s.plans|]];
    assert s'.incidents[|s.incidents|].evidence[1..] == ChangeEvidence(signal, Known(c, events));
  }

  // ---- which readings raise an alert -------------------------------------------------------

  /** The samples a rule got of an asset since the service last started. */
  function Readings(c: Config, es: seq<Event>, r: string, a: string): seq<Sample> {
    if |es| == 0 then []
    else
      var front, e := es[..|es| - 1], es[|es| - 1];
      if e.Restarted? then []
      else if Concerns(c, e, r, a) then Readings(c, front, r, a) + [Sample(e.now, e.sample)]
      else Readings(c, front, r, a)
  }

  lemma StepSamples(c: Config, s: Store, e: Event)
    requires RulesNamed(c)
    ensures Step(c, s, e).samples ==
            match e
            case Restarted => map[]
            case Measured(r, a, sample, now) =>
              if r in c.rules then Remember(c.rules[r], s.samples, a, sample, now) else s.samples
            case _ => s.samples
  {
    match e
    case Signalled(signal, detection, events, now) => SignalKeepsStates(c, s, signal, detection, events, now);
    case Measured(r, a, sample, now) =>
      if r in c.rules { MeasureStates(s, c.rules[r], a, sample, now); }
    case _ =>
  }

  /** What is remembered of an asset is the deque all its readings leave behind. */
  lemma {:induction false} SamplesFollowReadings(c: Config, es: seq<Event>, r: string, a: string)
    requires RulesNamed(c) && r in c.rules && c.rules[r].operator == "increase_gte"
    ensures SamplesAt(Run(c, es).samples, (r, a)) == Windowed(1000 * c.rules[r].windowSeconds, Readings(c, es, r, a))
  {
    if |es| > 0 {
      SamplesFollowReadings(c, es[..|es| - 1], r, a);
      StepRemembers(c, Run(c, es[..|es| - 1]), es[|es| - 1], r, a, Readings(c, es[..|es| - 1], r, a),
                    Readings(c, es, r, a));
    }
  }

  lemma StepRemembers(c: Config, s: Store, e: Event, r: string, a: string, log: seq<Sample>, log': seq<Sample>)
    requires RulesNamed(c) && r in c.rules && c.rules[r].operator == "increase_gte"
    requires SamplesAt(s.samples, (r, a)) == Windowed(1000 * c.rules[r].windowSeconds, log)
    requires log' == if e.Restarted? then [] else if Concerns(c, e, r, a) then log + [Sample(e.now, e.sample)] else log
    ensures SamplesAt(Step(c, s, e).samples, (r, a)) == Windowed(1000 * c.rules[r].windowSeconds, log')
  {
    StepSamples(c, s, e);
    if Concerns(c, e, r, a) {
      RemembersOne(c.rules[r], s.samples, a, e.sample, e.now, log, 1000 * c.rules[r].windowSeconds);
    }
  }

  lemma RemembersOne(rule: Rule, samples: map<(string, string), seq<Sample>>, a: string, sample: real, now: int,
                     log: seq<Sample>, window: int)
    requires rule.operator == "increase_gte" && window == 1000 * rule.windowSeconds
    requires SamplesAt(samples, (rule.id, a)) == Windowed(window, log)
    ensures SamplesAt(Remember(rule, samples, a, sample, now), (rule.id, a))
            == Windowed(window, log + [Sample(now, sample)])
  {
    WindowedSnoc(window, log, Sample(now, sample));
  }

  /** The reading is past the threshold in the sense of the rule's operator. */
  ghost predicate ReadingPast(rule: Rule, log: seq<Sample>) {
    exists v :: IsReading(rule, log, v) && Past(v, rule.operator, rule.threshold)
  }

  lemma OneReading(rule: Rule, log: seq<Sample>, u: real, v: real)
    requires IsReading(rule, log, u) && IsReading(rule, log, v)
    ensures u == v
  {
    if rule.operator == "increase_gte" {
      var boundary := log[|log| - 1].at - 1000 * rule.windowSeconds;
      var i :| IsOldest(log, boundary, i) && u == log[|log| - 1].value - log[i].value;
      var j :| IsOldest(log, boundary, j) && v == log[|log| - 1].value - log[j].value;
      assert i == j;
    }
  }

  lemma BreachIsPast(c: Config, es: seq<Event>, e: Event)
    requires RulesNamed(c) && e.Measured? && e.ruleId in c.rules
    requires c.rules[e.ruleId].operator == "increase_gte" ==>
               InTimeOrder(Readings(c, es, e.ruleId, e.assetId) + [Sample(e.now, e.sample)])
    ensures IsBreach(c, es, e)
            <==> ReadingPast(c.rules[e.ruleId], Readings(c, es, e.ruleId, e.assetId) + [Sample(e.now, e.sample)])
  {
    var rule, log := c.rules[e.ruleId], Readings(c, es, e.ruleId, e.assetId);
    var all := log + [Sample(e.now, e.sample)];
    if rule.operator == "increase_gte" { SamplesFollowReadings(c, es, e.ruleId, e.assetId); }
    ValueIsReading(rule, log, e.sample, e.now);
    ReadingIsSpelled(rule, all);
    if v :| IsReading(rule, all, v) && Past(v, rule.operator, rule.threshold) {
      OneReading(rule, all, v, Reading(rule, all));
    }
  }

  /** The rule's whole history is its readings held against its threshold, one by one; growth is read over
    * sample times that never decrease.
    */
  lemma {:induction false} HistoryIsReadings(c: Config, es: seq<Event>, r: string, a: string)
    requires RulesNamed(c) && r in c.rules
    requires c.rules[r].operator == "increase_gte" ==> InTimeOrder(Readings(c, es, r, a))
    ensures var h, log := History(c, es, r, a), Readings(c, es, r, a);
            |h| == |log| && forall k :: 0 <= k < |log| ==> (h[k] <==> PastAt(c.rules[r], log, k))
  {
    if |es| > 0 && !es[|es| - 1].Restarted? {
      var n := |es| - 1;
      var front, e, log := es[..n], es[n], Readings(c, es[..n], r, a);
      if Concerns(c, e, r, a) {
        var x := Sample(e.now, e.sample);
        if c.rules[r].operator == "increase_gte" { OrderedPrefix(log, x); }
        HistoryIsReadings(c, front, r, a);
        BreachIsPast(c, front, e);
        OneMoreReading(c.rules[r], History(c, front, r, a), log, IsBreach(c, front, e), x);
      } else {
        HistoryIsReadings(c, front, r, a);
      }
    }
  }

  lemma OneMoreReading(rule: Rule, h: seq<bool>, log: seq<Sample>, breach: bool, x: Sample)
    requires |h| == |log| && forall k :: 0 <= k < |log| ==> (h[k] <==> PastAt(rule, log, k))
    requires breach <==> ReadingPast(rule, log + [x])
    ensures forall k :: 0 <= k < |log| + 1 ==> ((h + [breach])[k] <==> PastAt(rule, log + [x], k))
  {
    forall k | 0 <= k < |log| + 1 ensures (h + [breach])[k] <==> PastAt(rule, log + [x], k) {
      SamePrefix(log, x, k);
    }
  }

  lemma SamePrefix(log: seq<Sample>, x: Sample, k: int)
    requires 0 <= k <= |log|
    ensures (log + [x])[..k + 1] == if k < |log| then log[..k + 1] else log + [x]
  {
  }

  ghost predicate PastAt(rule: Rule, log: seq<Sample>, k: int)
    requires 0 <= k < |log|
  {
    ReadingPast(rule, log[..k + 1])
  }

  ghost predicate LastPast(rule: Rule, log: seq<Sample>, n: int, past: bool) {
    n <= |log| && forall k :: 0 <= k && |log| - n <= k < |log| ==> (PastAt(rule, log, k) <==> past)
  }

  /** Enough readings in a row past the threshold, and there is exactly one active incident for the rule and
    * the asset; enough in a row that are not, and there is none. Restarts in between only start the count
    * anew.
    */
  lemma ReadingsDecide(c: Config, es: seq<Event>, r: string, a: string)
    requires RulesNamed(c) && NamespaceReserved(c) && r in c.rules
    requires c.rules[r].operator == "increase_gte" ==> InTimeOrder(Readings(c, es, r, a))
    ensures var s, log, rule := Run(c, es), Readings(c, es, r, a), c.rules[r];
            && TrackedOnce(s, r, a)
            && (LastPast(rule, log, rule.consecutiveCycles, true) ==> Tracked(s, r, a))
            && (LastPast(rule, log, rule.recoveryCycles, false) ==> !Tracked(s, r, a))
  {
    var log, h, rule := Readings(c, es, r, a), History(c, es, r, a), c.rules[r];
    HistoryIsReadings(c, es, r, a);
    LeftoversResolve(c, es, r, a);
    if LastPast(rule, log, rule.consecutiveCycles, true) {
      TrailingIsLongest(h, true, rule.consecutiveCycles);
      LongBreachAlerts(rule, h);
    }
    if LastPast(rule, log, rule.recoveryCycles, false) { TrailingIsLongest(h, false, rule.recoveryCycles); }
  }

  lemma LongBreachAlerts(rule: Rule, h: seq<bool>)
    requires Trailing(h, true) >= rule.consecutiveCycles
    ensures Alerting(rule, h)
  {
    var n := |h| - 1;
    assert h == h[..n] + [h[n]];
    AlertingStep(rule, h[..n], h[n]);
  }

  /** One sample changes at most one incident: it opens the rule's own, or resolves the one that is there. */
  lemma MeasureChanges(c: Config, s: Store, rule: Rule, a: string, sample: real, now: int)
    ensures var s' := Measure(s, rule, a, sample, now);
            && s'.plans == s.plans && s'.approvals == s.approvals && s'.runs == s.runs && s'.actionKeys == s.actionKeys
            && (|| s'.incidents == s.incidents
                || (exists after :: s'.incidents == s.incidents + [after] && OpenedBy(after, rule, a, now))
                || (exists i :: 0 <= i < |s.incidents| && Tracks(s.incidents[i], rule.id, a)
                                && s'.incidents == s.incidents[i := s.incidents[i].(status := Resolved,
                                                                                    updatedAt := now)]))
  {
    var s' := Measure(s, rule, a, sample, now);
    if |s'.incidents| > |s.incidents| { assert OpenedBy(ObservedIncident(rule, a, now), rule, a, now); }
  }

  ghost predicate OpenedBy(after: Incident, rule: Rule, a: string, now: int) {
    && after.assetId == a && after.severity == rule.severity && after.status == Open
    && after.createdAt == now && after.updatedAt == now
    && |after.evidence| == 1 && after.evidence[0].source == "monitor-rule"
    && after.evidence[0].query == "registered://monitor-rules/" + rule.id
    && after.evidence[0].startedAt == now - 1000 * rule.windowSeconds && after.evidence[0].endedAt == now
    && after.hypotheses == [Hypothesis(a, 0.8, 0)]
  }
}
