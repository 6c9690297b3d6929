/** What holds of the control plane over every run. */
module SystemTheorems {
  import opened Outcomes
  import opened Monitoring
  import opened Incidents
  import opened ControlPlaneCore
  import opened SystemRuns
  import Remediation

  // ---- plans, approvals and runs -----------------------------------------------------------

  /** Over every run: a pending plan's incident is waiting for approval; there is one plan per
    * incident, one run per plan and per key and one approval per run; a run's status says what its
    * plan's and its incident's are; evidence stays tidy.
    */
  lemma EndStatesAgree(c: Config, es: seq<Event>)
    requires RulesNamed(c) && NamespaceReserved(c)
    ensures var s := Run(c, es);
            && (forall p :: 0 <= p < |s.plans| && s.plans[p].status == Pending ==>
                  s.plans[p].incident < |s.incidents| && s.incidents[s.plans[p].incident].status == WaitingApproval)
            && (forall p, q ::
                  0 <= p < |s.plans| && 0 <= q < |s.plans| && s.plans[p].incident == s.plans[q].incident ==> p == q)
            && (forall r, q :: 0 <= r < |s.runs| && 0 <= q < |s.runs| ==>
                  (s.runs[r].plan == s.runs[q].plan ==> r == q)
                      && (s.runs[r].idempotencyKey == s.runs[q].idempotencyKey ==> r == q))
            && |s.approvals| == |s.runs|
            && (forall r :: 0 <= r < |s.runs| ==> Agree(s, r))
            && (forall i :: 0 <= i < |s.incidents| ==> Tidy(s.incidents[i]))
  {
    InvariantHolds(c, es);
    var s := Run(c, es);
    forall r | 0 <= r < |s.runs|
      ensures Agree(s, r)
      ensures s.runs[r].idempotencyKey in s.actionKeys && s.actionKeys[s.runs[r].idempotencyKey] == r
    {
      assert RunFits(c, s, r);
    }
  }

  ghost predicate Agree(s: Store, r: int)
    requires 0 <= r < |s.runs|
  {
    var run := s.runs[r];
    && run.plan < |s.plans| && run.incident < |s.incidents| && s.plans[run.plan].incident == run.incident
    && match run.status
       case RunRunning => s.plans[run.plan].status == Executing && s.incidents[run.incident].status == Remediating
       case RunSucceeded => s.plans[run.plan].status == Succeeded && s.incidents[run.incident].status == Resolved
       case _ => s.plans[run.plan].status == PlanFailed && s.incidents[run.incident].status == Failed
  }

  /** What a first granted request adds: an approval and a run of a pending, unexpired plan with the
    * approved content, whose status and log are the execution's and whose plan and incident follow it.
    */
  ghost predicate Executed(c: Config, s: Store, s': Store, w: Remediation.World, p: nat, hash: string, now: int)
  {
    && p < |s.plans| && s.plans[p].status == Pending && now <= s.plans[p].expiresAt
    && s.plans[p].incident < |s.incidents|
    && hash == c.contentHash(s.plans[p].Content())
    && |s'.approvals| == |s.approvals| + 1 && |s'.runs| == |s.runs| + 1 && |s'.incidents| == |s.incidents|
    && var x := Remediation.Execute(w, [], s.plans[p].steps, s.incidents[s.plans[p].incident].assetId);
    && var run := s'.runs[|s.runs|];
    && run.plan == p && run.incident == s.plans[p].incident && run.status == x.status
    && run.sent == (if x.status.RunRunning? then [] else x.sent)
    && Agree(s', |s.runs|)
  }

  /** In every reachable state a refused approval saves nothing: no approval without its run. */
  lemma NoApprovalWithoutRun(c: Config, es: seq<Event>, w: Remediation.World, p: nat, approver: string, hash: string,
                             key: string, now: int)
    requires RulesNamed(c) && NamespaceReserved(c)
    ensures var s := Run(c, es);
            var (s', r) := Approve(c, s, w, p, approver, hash, key, now);
            && (!Granted(r) ==> s'.approvals == s.approvals && s'.runs == s.runs && s'.incidents == s.incidents)
            && (Granted(r) && key !in s.actionKeys ==>
                  && Executed(c, s, s', w, p, hash, now)
                  && s'.actionKeys == s.actionKeys[key := |s.runs|]
                  && (if s'.runs[|s.runs|].status.RunRunning? then r == Err(CallRaised) else r == Ok(|s.runs|)))
  {
    InvariantHolds(c, es);
    var s := Run(c, es);
    if !Granted(Approve(c, s, w, p, approver, hash, key, now).1) {
      RefusalChangesLittle(c, s, w, p, approver, hash, key, now);
    }
  }

  /** Every step succeeded, and so did the verification if one was due. */
  ghost predicate Recovered(w: Remediation.World, steps: seq<Remediation.Step>, assetId: string) {
    && (forall k :: 0 <= k < |steps| ==>
          w.execute(steps[..k], steps[k]).Some? && w.execute(steps[..k], steps[k]).value.succeeded)
    && (w.healthy.Some? && "lab-" <= assetId ==> w.healthy.value(steps, assetId) == Some(true))
  }

  lemma CompletedAll(w: Remediation.World, steps: seq<Remediation.Step>)
    ensures Remediation.Completed(w, [], steps) == |steps|
            <==> forall k :: 0 <= k < |steps| ==> Remediation.Succeeds(w, steps[..k], steps[k])
  {
    Remediation.CompletedStopsAtFirstFailure(w, [], steps);
    assert forall k :: 0 <= k < |steps| ==> [] + steps[..k] == steps[..k];
  }

  lemma ExecutionOutcome(w: Remediation.World, steps: seq<Remediation.Step>, assetId: string)
    ensures var x := Remediation.Execute(w, [], steps, assetId);
            (x.status.RunSucceeded? <==> Recovered(w, steps, assetId))
                && (x.status.RunRunning? <==> Remediation.Interrupted(w, [], steps, assetId))
  {
    CompletedAll(w, steps);
    assert [] + steps == steps;
    Remediation.SucceededExactlyWhenVerified(w, [], steps, assetId);
    Remediation.RunningExactlyWhenInterrupted(w, [], steps, assetId);
  }

  /** From every reachable state, a first granted request resolves the incident exactly when every step
    * and any required verification succeeded, leaves it remediating exactly when a call raised, and fails
    * it otherwise; it is answered exactly when nothing raised.
    */
  lemma ResolvedExactlyWhenRecovered(
    c: Config, es: seq<Event>, w: Remediation.World, p: nat, approver: string, hash: string, key: string, now: int)
    requires RulesNamed(c) && NamespaceReserved(c)
    requires key !in Run(c, es).actionKeys && Granted(Approve(c, Run(c, es), w, p, approver, hash, key, now).1)
    ensures var s := Run(c, es);
            var (s', r) := Approve(c, s, w, p, approver, hash, key, now);
            && Executed(c, s, s', w, p, hash, now)
            && var i := s.plans[p].incident;
            && var status := s'.incidents[i].status;
            && (status == Resolved <==> Recovered(w, s.plans[p].steps, s.incidents[i].assetId))
            && (status == Remediating <==> Remediation.Interrupted(w, [], s.plans[p].steps, s.incidents[i].assetId))
            && (status == Failed <==> status != Resolved && status != Remediating)
            && (r.Ok? <==> status != Remediating)
  {
    NoApprovalWithoutRun(c, es, w, p, approver, hash, key, now);
    var s := Run(c, es);
    ExecutionOutcome(w, s.plans[p].steps, s.incidents[s.plans[p].incident].assetId);
  }

  /** Runs and key bindings are never changed or lost, a plan past approval and a closed incident are
    * never touched again, and an incident in remediation stays there.
    */
  ghost predicate Preserves(s: Store, s': Store) {
    && s.runs <= s'.runs && |s.incidents| <= |s'.incidents| && |s.plans| <= |s'.plans|
    && (forall k :: k in s.actionKeys ==> k in s'.actionKeys && s'.actionKeys[k] == s.actionKeys[k])
    && (forall i :: 0 <= i < |s.incidents| && (s.incidents[i].status == Resolved || s.incidents[i].status == Failed) ==>
          s'.incidents[i] == s.incidents[i])
    && (forall i :: 0 <= i < |s.incidents| && s.incidents[i].status == Remediating ==>
          s'.incidents[i].status == Remediating)
    && (forall p :: 0 <= p < |s.plans| && s.plans[p].status != Pending ==> s'.plans[p] == s.plans[p])
  }

  lemma MergePreserves(s: Store, i: nat, signal: Signal, score: real, changes: seq<Evidence>, now: int)
    requires i < |s.incidents| && s.incidents[i].Active()
    ensures Preserves(s, MergeSignal(s, i, signal, score, changes, now).0)
  {
  }

  lemma SignalPreserves(c: Config, s: Store, signal: Signal, detection: Detection, events: ChangeLog, now: int)
    ensures Preserves(s, EvaluateSignal(c, s, signal, detection, events, now).0)
  {
    if detection.anomalous {
      if Matching(c, signal, s.incidents).Some? {
        var i, score := MatchedSignalMerges(c, s, signal, detection, events, now);
        MergePreserves(s, i, signal, score, ChangeEvidence(signal, Known(c, events)), now);
      } else {
        var incident := UnmatchedSignalAppends(c, s, signal, detection, events, now);
      }
    }
  }

  lemma UnmatchedSignalAppends(c: Config, s: Store, signal: Signal, detection: Detection, events: ChangeLog, now: int)
    returns (incident: Incident)
    requires detection.anomalous && Matching(c, signal, s.incidents).None?
    ensures var s' := EvaluateSignal(c, s, signal, detection, events, now).0;
            s'.incidents == s.incidents + [incident] && s'.runs == s.runs && s'.actionKeys == s.actionKeys
                && s'.states == s.states && s'.samples == s.samples
            && s.plans <= s'.plans
    ensures incident.assetId == signal.assetId && incident.Active() && incident.updatedAt == now
    ensures |incident.evidence| > 0 && incident.evidence[0] == MetricEvidence(signal)
  {
    incident := NewIncident(signal, detection, ChangeEvidence(signal, Known(c, events)), now);
    if !(RealAsset(signal.assetId) && c.realActionsMode == "observe_only") {
      incident := incident.WaitForApproval(now).value;
    }
  }

  lemma EvaluationPreserves(s: Store, rule: Rule, assetId: string, breached: bool, now: int)
    ensures Preserves(s, EvaluateRule(s, rule, assetId, breached, now))
  {
  }

  lemma ApprovalPreserves(c: Config, s: Store, w: Remediation.World, p: nat, approver: string, hash: string,
                          key: string, now: int)
    ensures Preserves(s, Approve(c, s, w, p, approver, hash, key, now).0)
  {
    ApprovalPreservesRuns(c, s, w, p, approver, hash, key, now);
    ApprovalPreservesPlans(c, s, w, p, approver, hash, key, now);
    ApprovalPreservesIncidents(c, s, w, p, approver, hash, key, now);
  }

  lemma ApprovalPreservesRuns(c: Config, s: Store, w: Remediation.World, p: nat, approver: string, hash: string,
                              key: string, now: int)
    ensures var s' := Approve(c, s, w, p, approver, hash, key, now).0;
            && s.runs <= s'.runs
            && forall k :: k in s.actionKeys ==> k in s'.actionKeys && s'.actionKeys[k] == s.actionKeys[k]
  {
  }

  /** A plan's content stays, and so does the status of one that is not pending. */
  lemma ApprovalPreservesPlans(c: Config, s: Store, w: Remediation.World, p: nat, approver: string, hash: string,
                               key: string, now: int)
    ensures var s' := Approve(c, s, w, p, approver, hash, key, now).0;
            && |s'.plans| == |s.plans|
            && (forall q :: 0 <= q < |s.plans| ==> s'.plans[q].(status := s.plans[q].status) == s.plans[q])
            && (forall q :: 0 <= q < |s.plans| && s.plans[q].status != Pending ==> s'.plans[q] == s.plans[q])
  {
  }

  lemma ApprovalPreservesIncidents(c: Config, s: Store, w: Remediation.World, p: nat, approver: string, hash: string,
                                   key: string, now: int)
    ensures var s' := Approve(c, s, w, p, approver, hash, key, now).0;
            && |s'.incidents| == |s.incidents|
            && (forall i :: 0 <= i < |s.incidents| ==> s'.incidents[i].assetId == s.incidents[i].assetId)
            && (forall i :: 0 <= i < |s.incidents| && s.incidents[i].status != WaitingApproval ==>
                  s'.incidents[i] == s.incidents[i])
  {
  }

  lemma StepPreserves(c: Config, s: Store, e: Event)
    ensures Preserves(s, Step(c, s, e))
  {
    match e
    case Signalled(signal, detection, events, now) => SignalPreserves(c, s, signal, detection, events, now);
    case ApprovalRequested(w, planId, approver, hash, key, now) =>
      ApprovalPreserves(c, s, w, planId, approver, hash, key, now);
    case Measured(ruleId, assetId, sample, now) =>
      if ruleId in c.rules {
        var rule := c.rules[ruleId];
        var s' := s.(samples := Remember(rule, s.samples, assetId, sample, now));
        EvaluationPreserves(s', rule, assetId, Breached(s, rule, assetId, sample, now), now);
      }
    case Restarted =>
  }

  /** Resolved and failed are absorbing, a settled run is final, and one that was cut short is never taken
    * up again, whatever happens later.
    */
  lemma {:induction false} ClosedForGood(c: Config, es: seq<Event>, more: seq<Event>)
    ensures Preserves(Run(c, es), Run(c, es + more))
  {
    if |more| == 0 {
      assert es + more == es;
    } else {
      var n := |more| - 1;
      ClosedForGood(c, es, more[..n]);
      assert (es + more)[..|es + more| - 1] == es + more[..n];
      StepPreserves(c, Run(c, es + more[..n]), more[n]);
      PreservesTransitive(Run(c, es), Run(c, es + more[..n]), Run(c, es + more));
    }
  }

  lemma PreservesTransitive(s: Store, t: Store, u: Store)
    requires Preserves(s, t) && Preserves(t, u)
    ensures Preserves(s, u)
  {
  }

  /** A retry under a used key gets the first call's run, whatever plan it names and however much
    * later it comes, and changes nothing, even when the first call raised.
    */
  lemma RetryGetsFirstRun(
    c: Config, es: seq<Event>, more: seq<Event>,
    w: Remediation.World, p: nat, approver: string, hash: string, key: string, now: int,
    w': Remediation.World, p': nat, approver': string, hash': string, now': int)
    requires Granted(Approve(c, Run(c, es), w, p, approver, hash, key, now).1)
    ensures var (s', r) := Approve(c, Run(c, es), w, p, approver, hash, key, now);
            var later := Run(c, es + [ApprovalRequested(w, p, approver, hash, key, now)] + more);
            && key in s'.actionKeys && (r.Ok? ==> r.value == s'.actionKeys[key])
            && Approve(c, later, w', p', approver', hash', key, now') == (later, Ok(s'.actionKeys[key]))
            && s'.runs <= later.runs
  {
    var first := es + [ApprovalRequested(w, p, approver, hash, key, now)];
    assert first[..|es|] == es;
    ClosedForGood(c, first, more);
  }

  const RAISING := Remediation.World((sent, step) => None, None)

  /** One signal, then the approval of its plan. */
  function Cut(c: Config): seq<Event> {
    var hash := c.contentHash(NewPlan(0, Signal("lab-web", "errors", 0), 0).Content());
    [Signalled(Signal("lab-web", "errors", 0), Detection(true, 10.0), [], 0),
     ApprovalRequested(RAISING, 0, "ann", hash, "k", 0)]
  }

  /** A dispatcher that raises on the first step leaves run, plan and incident half way, nothing later
    * moves them, and a retry is told of the running run.
    */
  lemma RaisedCallIsFinal(c: Config, more: seq<Event>)
    ensures var s := Run(c, Cut(c) + more);
            && |s.runs| > 0 && s.runs[0].status.RunRunning? && Agree(s, 0)
            && forall w, p, approver, hash, now :: Approve(c, s, w, p, approver, hash, "k", now) == (s, Ok(0))
  {
    var e0, e1 := Cut(c)[0], Cut(c)[1];
    assert Cut(c)[..1] == [e0] && [e0][..0] == [];
    var s1 := Step(c, EMPTY, e0);
    assert Run(c, [e0]) == s1;
    LabSignalWaits(c);
    RaisingCuts(c, s1, NewPlan(0, e0.signal, 0), e1);
    assert Run(c, Cut(c)) == Step(c, s1, e1);
    ClosedForGood(c, Cut(c), more);
  }

  lemma LabSignalWaits(c: Config)
    ensures var s := Step(c, EMPTY, Cut(c)[0]);
            && s.plans == [NewPlan(0, Cut(c)[0].signal, 0)] && s.runs == [] && s.actionKeys == map[]
            && |s.incidents| == 1 && s.incidents[0].status == WaitingApproval
  {
    NoMatch(Cut(c)[0].signal, EMPTY.incidents, c.edges);
    assert "lab-web"[0] == 'l';
  }

  lemma RaisingCuts(c: Config, s: Store, plan: Plan, e: Event)
    requires s.plans == [plan] && |s.incidents| == 1 && s.runs == [] && s.actionKeys == map[]
    requires plan == NewPlan(0, Signal("lab-web", "errors", 0), 0) && s.incidents[0].status == WaitingApproval
    requires e == ApprovalRequested(RAISING, 0, "ann", c.contentHash(plan.Content()), "k", 0)
    ensures var s' := Step(c, s, e);
            |s'.runs| == 1 && s'.runs[0].status.RunRunning? && Agree(s', 0) && s'.actionKeys == map["k" := 0]
  {
    assert "lab-web"[0] == 'l';
    LabStepsAreFree("lab-web");
    assert Remediation.Completed(RAISING, [], plan.steps) == 0;
  }

  lemma LabStepsAreFree(assetId: string)
    requires !RealAsset(assetId)
    ensures RealSteps(DefaultSteps(assetId)) == []
  {
    var steps := DefaultSteps(assetId);
    assert steps[..1][..0] == [] && RealSteps(steps[..1]) == [];
  }

  // ---- alerts and incidents ----------------------------------------------------------------

  /** Whether the event is a breach of its rule, given what happened before. */
  predicate IsBreach(c: Config, es: seq<Event>, e: Event)
    requires e.Measured? && e.ruleId in c.rules
  {
    Breached(Run(c, es), c.rules[e.ruleId], e.assetId, e.sample, e.now)
  }

  predicate Concerns(c: Config, e: Event, ruleId: string, assetId: string) {
    e.Measured? && e.ruleId == ruleId && e.assetId == assetId && ruleId in c.rules
  }

  /** What a rule saw of an asset since the service last started. */
  function History(c: Config, es: seq<Event>, ruleId: string, assetId: string): seq<bool> {
    if |es| == 0 then []
    else
      var front, e := es[..|es| - 1], es[|es| - 1];
      if e.Restarted? then []
      else if Concerns(c, e, ruleId, assetId) then History(c, front, ruleId, assetId) + [IsBreach(c, front, e)]
      else History(c, front, ruleId, assetId)
  }

  lemma SignalKeepsStates(c: Config, s: Store, signal: Signal, detection: Detection, events: ChangeLog, now: int)
    ensures var s' := EvaluateSignal(c, s, signal, detection, events, now).0;
            s'.states == s.states && s'.samples == s.samples
  {
    if detection.anomalous && Matching(c, signal, s.incidents).None? {
      var incident := UnmatchedSignalAppends(c, s, signal, detection, events, now);
    }
  }

  lemma StepStates(c: Config, s: Store, e: Event)
    requires RulesNamed(c)
    ensures Step(c, s, e).states ==
            match e
            case Restarted => map[]
            case Measured(r, a, sample, now) =>
              if r in c.rules then
                s.states[(r, a) := Observe(c.rules[r], StateAt(s.states, (r, a)),
                                           Breached(s, c.rules[r], a, sample, now))]
              else s.states
            case _ => s.states
  {
    match e
    case Signalled(signal, detection, events, now) => SignalKeepsStates(c, s, signal, detection, events, now);
    case Measured(r, a, sample, now) =>
      if r in c.rules { MeasureStates(s, c.rules[r], a, sample, now); }
    case _ =>
  }

  lemma MeasureStates(s: Store, rule: Rule, a: string, sample: real, now: int)
    ensures var s', key := Measure(s, rule, a, sample, now), (rule.id, a);
            && s'.states == s.states[key := Observe(rule, StateAt(s.states, key), Breached(s, rule, a, sample, now))]
            && s'.samples == Remember(rule, s.samples, a, sample, now)
  {
  }

  lemma {:induction false} StatesFollowHistory(c: Config, es: seq<Event>, r: string, a: string)
    requires RulesNamed(c) && r in c.rules
    ensures StateAt(Run(c, es).states, (r, a)) == Observed(c.rules[r], History(c, es, r, a))
  {
    if |es| > 0 {
      var n := |es| - 1;
      StatesFollowHistory(c, es[..n], r, a);
      StepStates(c, Run(c, es[..n]), es[n]);
      var h := History(c, es[..n], r, a);
      if Concerns(c, es[n], r, a) { assert (h + [IsBreach(c, es[..n], es[n])])[..|h|] == h; }
    }
  }

  lemma EvaluationTracks(c: Config, s: Store, r: string, a: string, breached: bool, now: int)
    requires Invariant(c, s) && RulesNamed(c) && r in c.rules
    ensures var s' := EvaluateRule(s, c.rules[r], a, breached, now);
            var state := Observe(c.rules[r], StateAt(s.states, (r, a)), breached);
            && (Tracked(s', r, a) <==>
                  state.alerting || (Tracked(s, r, a)
                                     && !(!breached && state.recoveryStreak >= c.rules[r].recoveryCycles)))
            && forall r', a' :: r' in c.rules && (r', a') != (r, a) ==> (Tracked(s', r', a') <==> Tracked(s, r', a'))
  {
    var rule := c.rules[r];
    var s' := EvaluateRule(s, rule, a, breached, now);
    var state := Observe(rule, StateAt(s.states, (r, a)), breached);
    var active := FirstTracking(s.incidents, ListIncidents(s.incidents), r, a);
    assert active.Some? <==> Tracked(s, r, a) by {
      if i :| 0 <= i < |s.incidents| && Tracks(s.incidents[i], r, a) { assert i in ListIncidents(s.incidents); }
    }
    if state.alerting && active.None? {
      OpeningTracks(c, s, s', rule, a, state, now);
    } else if active.Some? && !state.alerting && !breached && state.recoveryStreak >= rule.recoveryCycles {
      assert !HasPlan(s, active.value) && s.incidents[active.value].status == Open;
      ResolvingTracks(c, s, s', rule, a, state, active.value, now);
    } else {
      assert s'.incidents == s.incidents;
    }
  }

  lemma OpeningTracks(c: Config, s: Store, s': Store, rule: Rule, a: string, state: RuleState, now: int)
    requires Opens(s, s', rule, a, state, now)
    ensures Tracked(s', rule.id, a)
    ensures forall r', a' :: (r', a') != (rule.id, a) ==> (Tracked(s', r', a') <==> Tracked(s, r', a'))
  {
    var n := |s.incidents|;
    forall r' ensures s'.incidents[n].Cites(MonitorQuery(r')) <==> r' == rule.id {
      OtherRuleUntouched(c, s'.incidents[n], rule.id, r');
    }
    assert Tracks(s'.incidents[n], rule.id, a);
    forall r', a' | (r', a') != (rule.id, a) ensures Tracked(s', r', a') <==> Tracked(s, r', a') {
      if k :| 0 <= k < n && Tracks(s.incidents[k], r', a') { assert Tracks(s'.incidents[k], r', a'); }
      if k :| 0 <= k <= n && Tracks(s'.incidents[k], r', a') { assert Tracks(s.incidents[k], r', a'); }
    }
  }

  lemma ResolvingTracks(c: Config, s: Store, s': Store, rule: Rule, a: string, state: RuleState, i: nat, now: int)
    requires MonitorMatch(c, s) && rule.id in c.rules && Resolves(s, s', rule, a, state, i, now)
    ensures !Tracked(s', rule.id, a)
    ensures forall r', a' :: r' in c.rules && (r', a') != (rule.id, a) ==> (Tracked(s', r', a') <==> Tracked(s, r', a'))
  {
    ResolveTracks(c, s, s', rule, a, state, i, now);
    forall r', a' | r' in c.rules && (r', a') != (rule.id, a) ensures Tracked(s', r', a') <==> Tracked(s, r', a') {
      if k :| 0 <= k < |s.incidents| && Tracks(s.incidents[k], r', a') { assert Tracks(s'.incidents[k], r', a'); }
      if k :| 0 <= k < |s.incidents| && Tracks(s'.incidents[k], r', a') { assert Tracks(s.incidents[k], r', a'); }
    }
  }

  lemma MeasureTracks(c: Config, s: Store, r: string, a: string, sample: real, now: int)
    requires Invariant(c, s) && RulesNamed(c) && r in c.rules
    ensures var s', rule := Measure(s, c.rules[r], a, sample, now), c.rules[r];
            var breached := Breached(s, rule, a, sample, now);
            var state := Observe(rule, StateAt(s.states, (r, a)), breached);
            && (Tracked(s', r, a) <==>
                  state.alerting || (Tracked(s, r, a) && !(!breached && state.recoveryStreak >= rule.recoveryCycles)))
            && forall r', a' :: r' in c.rules && (r', a') != (r, a) ==> (Tracked(s', r', a') <==> Tracked(s, r', a'))
  {
    var rule := c.rules[r];
    var t := s.(samples := Remember(rule, s.samples, a, sample, now));
    SamplesAside(c, s, t);
    EvaluationTracks(c, t, r, a, Breached(s, rule, a, sample, now), now);
  }

  /** How the tracked incidents move in one step of a run. */
  lemma StepTracks(c: Config, es: seq<Event>, e: Event, r: string, a: string)
    requires RulesNamed(c) && NamespaceReserved(c) && r in c.rules
    ensures var s, s' := Run(c, es), Run(c, es + [e]);
            var state := Observed(c.rules[r], History(c, es + [e], r, a));
            if Concerns(c, e, r, a) then
              Tracked(s', r, a) <==>
                state.alerting || (Tracked(s, r, a)
                                   && !(!IsBreach(c, es, e) && state.recoveryStreak >= c.rules[r].recoveryCycles))
            else Tracked(s', r, a) <==> Tracked(s, r, a)
  {
    assert (es + [e])[..|es|] == es;
    InvariantHolds(c, es);
    var s, s' := Run(c, es), Run(c, es + [e]);
    match e
    case Signalled(signal, detection, events, now) => SignalKeeps(c, s, signal, detection, events, now, s');
    case ApprovalRequested(w, planId, approver, hash, key, now) =>
      ApprovalKeeps(c, s, w, planId, approver, hash, key, now);
    case Measured(r', a', sample, now) =>
      if r' in c.rules {
        MeasureTracks(c, s, r', a', sample, now);
        StatesFollowHistory(c, es, r, a);
        var h := History(c, es, r, a);
        assert (h + [IsBreach(c, es, e)])[..|h|] == h;
      }
    case Restarted => assert s'.incidents == s.incidents;
  }

  /** An incident of the asset, neither resolved nor failed, that cites the rule's registered query. */
  lemma TracksMeans(i: Incident, r: string, a: string)
    ensures Tracks(i, r, a)
            <==> && i.assetId == a && i.status != Resolved && i.status != Failed
                 && exists e :: e in i.evidence && e.query == "registered://monitor-rules/" + r
  {
    if Tracks(i, r, a) {
      var k :| 0 <= k < |i.evidence| && i.evidence[k].query == MonitorQuery(r);
      assert i.evidence[k] in i.evidence;
    }
  }

  ghost predicate TrackedOnce(s: Store, r: string, a: string) {
    forall i, j :: 0 <= i < |s.incidents| && 0 <= j < |s.incidents| ==>
      Tracks(s.incidents[i], r, a) && Tracks(s.incidents[j], r, a) ==> i == j
  }

  /** Without a restart, after any run exactly one active incident carries a rule's query for an asset
    * when the rule's whole history of that asset is alerting, and none does otherwise.
    */
  lemma {:induction false} IncidentTracksAlert(c: Config, es: seq<Event>, r: string, a: string)
    requires RulesNamed(c) && NamespaceReserved(c) && r in c.rules
    requires forall k :: 0 <= k < |es| ==> !es[k].Restarted?
    ensures Tracked(Run(c, es), r, a) <==> Alerting(c.rules[r], History(c, es, r, a))
    ensures var s := Run(c, es);
            TrackedOnce(s, r, a)
  {
    InvariantHolds(c, es);
    CountersMeanHistory(c.rules[r], History(c, es, r, a));
    if |es| > 0 {
      var n := |es| - 1;
      var front, e := es[..n], es[n];
      assert es == front + [e];
      IncidentTracksAlert(c, front, r, a);
      StepTracks(c, front, e, r, a);
      var h := History(c, front, r, a);
      CountersMeanHistory(c.rules[r], h);
      if Concerns(c, e, r, a) { assert (h + [IsBreach(c, front, e)])[..|h|] == h; }
    }
  }

  /** Across restarts: an alert since the restart has its incident, there is never more than one, and
    * once the asset has been healthy for `recoveryCycles` evaluations since the restart none is left.
    */
  lemma LeftoversResolve(c: Config, es: seq<Event>, r: string, a: string)
    requires RulesNamed(c) && NamespaceReserved(c) && r in c.rules
    ensures var s, h := Run(c, es), History(c, es, r, a);
            && (Alerting(c.rules[r], h) ==> Tracked(s, r, a))
            && (Trailing(h, false) >= c.rules[r].recoveryCycles ==> !Tracked(s, r, a))
            && TrackedOnce(s, r, a)
  {
    InvariantHolds(c, es);
    StatesFollowHistory(c, es, r, a);
    CountersMeanHistory(c.rules[r], History(c, es, r, a));
  }

  /** An incident stops being tracked in one way only: by the evaluation that completes a healthy run
    * of `recoveryCycles` since the restart.
    */
  lemma NeverResolvedEarly(c: Config, es: seq<Event>, e: Event, r: string, a: string)
    requires RulesNamed(c) && NamespaceReserved(c) && r in c.rules
    requires Tracked(Run(c, es), r, a) && !Tracked(Run(c, es + [e]), r, a)
    ensures Concerns(c, e, r, a) && !IsBreach(c, es, e)
    ensures Trailing(History(c, es + [e], r, a), false) == c.rules[r].recoveryCycles
  {
    StepTracks(c, es, e, r, a);
    LeftoversResolve(c, es, r, a);
    HistoryAppend(c, es, e, r, a);
    CompletesRun(c.rules[r], History(c, es, r, a));
  }

  lemma HistoryAppend(c: Config, es: seq<Event>, e: Event, r: string, a: string)
    requires Concerns(c, e, r, a)
    ensures History(c, es + [e], r, a) == History(c, es, r, a) + [IsBreach(c, es, e)]
  {
    assert (es + [e])[..|es|] == es;
  }

  lemma CompletesRun(rule: Rule, h: seq<bool>)
    requires Trailing(h, false) < rule.recoveryCycles
    ensures Observed(rule, h + [false]).recoveryStreak >= rule.recoveryCycles ==>
              Trailing(h + [false], false) == rule.recoveryCycles
  {
    assert (h + [false])[..|h|] == h;
    CountersMeanHistory(rule, h + [false]);
  }

  // ---- the namespace condition is exact ----------------------------------------------------

  ghost predicate Safe(c: Config, s: Store) {
    && (forall p :: 0 <= p < |s.plans| && s.plans[p].status == Pending ==>
          s.plans[p].incident < |s.incidents| && s.incidents[s.plans[p].incident].status == WaitingApproval)
    && (forall i, j, r, a :: 0 <= i < |s.incidents| && 0 <= j < |s.incidents| && r in c.rules ==>
          Tracks(s.incidents[i], r, a) && Tracks(s.incidents[j], r, a) ==> i == j)
  }

  function Impostor(stem: string, assetId: string, at: int): Event {
    Signalled(Signal(assetId, MONITOR_PREFIX + stem, at), Detection(true, 10.0), [], at)
  }

  /** Two signals, more than five minutes apart, that spell a rule's query leave two active incidents
    * that both pass for the rule's own.
    */
  lemma ImpostorsCollide(c: Config, stem: string, assetId: string)
    requires stem + AssetSelector(assetId) in c.rules
    ensures !Safe(c, Run(c, [Impostor(stem, assetId, 0), Impostor(stem, assetId, 400000)]))
  {
    var r := stem + AssetSelector(assetId);
    var e0, e1 := Impostor(stem, assetId, 0), Impostor(stem, assetId, 400000);
    assert MetricQuery(MONITOR_PREFIX + stem, assetId) == MonitorQuery(r);
    TwoSteps(c, e0, e1);
    NoMatch(e0.signal, EMPTY.incidents, c.edges);
    ImpostorOpens(c, EMPTY, e0, r);
    var s1 := Step(c, EMPTY, e0);
    TooLateToMatch(c, s1, e1);
    ImpostorOpens(c, s1, e1, r);
    var s2 := Step(c, s1, e1);
    assert s2.incidents[0] == s2.incidents[..1][0] == s1.incidents[0];
    TwoTrackersAreUnsafe(c, s2, r, assetId, 0, 1);
  }

  lemma TooLateToMatch(c: Config, s: Store, e: Event)
    requires e.Signalled? && |s.incidents| == 1 && e.signal.occurredAt - s.incidents[0].updatedAt > CORRELATION_WINDOW
    ensures Matching(c, e.signal, s.incidents).None?
  {
    assert Relevance(e.signal, s.incidents[0], c.edges).None?;
    NoMatch(e.signal, s.incidents, c.edges);
  }

  lemma TwoSteps(c: Config, e0: Event, e1: Event)
    ensures Run(c, [e0, e1]) == Step(c, Step(c, EMPTY, e0), e1)
  {
    assert [e0, e1][..1] == [e0] && [e0][..0] == [];
    assert Run(c, [e0]) == Step(c, EMPTY, e0);
  }

  lemma TwoTrackersAreUnsafe(c: Config, s: Store, r: string, assetId: string, i: nat, j: nat)
    requires r in c.rules && i < j < |s.incidents| && Tracks(s.incidents[i], r, assetId)
             && Tracks(s.incidents[j], r, assetId)
    ensures !Safe(c, s)
  {
  }

  lemma NoMatch(signal: Signal, incidents: seq<Incident>, edges: seq<Edge>)
    requires forall i :: 0 <= i < |incidents| ==> Relevance(signal, incidents[i], edges).None?
    ensures FindMatch(signal, incidents, edges).None?
  {
    MatchIsBest(signal, incidents, edges);
  }

  lemma ImpostorOpens(c: Config, s: Store, e: Event, r: string)
    requires e.Signalled? && e.detection.anomalous && Matching(c, e.signal, s.incidents).None?
    requires MetricQuery(e.signal.name, e.signal.assetId) == MonitorQuery(r)
    ensures var s' := Step(c, s, e);
            && |s'.incidents| == |s.incidents| + 1 && s'.incidents[..|s.incidents|] == s.incidents
            && Tracks(s'.incidents[|s.incidents|], r, e.signal.assetId)
            && s'.incidents[|s.incidents|].updatedAt == e.now
  {
    var incident := UnmatchedSignalAppends(c, s, e.signal, e.detection, e.events, e.now);
    assert incident.evidence[0].query == MonitorQuery(r);
    assert (s.incidents + [incident])[|s.incidents|] == incident;
  }

  /** Every run is safe exactly when no registered rule id ends in an asset selector. */
  lemma SafeExactlyWhenReserved(c: Config)
    requires RulesNamed(c)
    ensures (forall es :: Safe(c, Run(c, es))) <==> NamespaceReserved(c)
  {
    if NamespaceReserved(c) {
      forall es ensures Safe(c, Run(c, es)) { InvariantHolds(c, es); }
    } else {
      var r :| r in c.rules && LooksLikeMetric(r);
      var stem, assetId :| r == stem + AssetSelector(assetId);
      ImpostorsCollide(c, stem, assetId);
    }
  }
}
