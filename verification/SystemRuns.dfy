/** Runs of signals, approvals, rule evaluations and restarts over the shared store, and what every
  * run keeps. Each service call is one step; monitoring runs in a worker thread, so taking one rule
  * evaluation as a step is a modelling choice.
  */
module SystemRuns {
  import opened Outcomes
  import opened Monitoring
  import opened Incidents
  import opened ControlPlaneCore
  import Remediation

  datatype Event =
    | Signalled(signal: Signal, detection: Detection, events: ChangeLog, now: int)
    | ApprovalRequested(world: Remediation.World, planId: nat, approver: string, approvedHash: string, key: string,
                        now: int)
    | Measured(ruleId: string, assetId: string, sample: real, now: int)
    | Restarted

  ghost predicate RulesNamed(c: Config) {
    forall r :: r in c.rules ==> c.rules[r].id == r
  }

  /** No registered rule id ends in a metric query's asset selector. */
  ghost predicate NamespaceReserved(c: Config) {
    forall r :: r in c.rules ==> !LooksLikeMetric(r)
  }

  function Step(c: Config, s: Store, e: Event): Store {
    match e
    case Signalled(signal, detection, events, now) => EvaluateSignal(c, s, signal, detection, events, now).0
    case ApprovalRequested(w, planId, approver, hash, key, now) => Approve(c, s, w, planId, approver, hash, key, now).0
    case Measured(ruleId, assetId, sample, now) =>
      if ruleId in c.rules then Measure(s, c.rules[ruleId], assetId, sample, now) else s
    case Restarted => s.(states := map[], samples := map[])
  }

  function Run(c: Config, es: seq<Event>): Store {
    if |es| == 0 then EMPTY else Step(c, Run(c, es[..|es| - 1]), es[|es| - 1])
  }

  // ---- plans -------------------------------------------------------------------------------

  ghost predicate HasPlan(s: Store, i: int) {
    exists p :: 0 <= p < |s.plans| && s.plans[p].incident == i
  }

  predicate StatusesAgree(plan: PlanStatus, incident: Status) {
    match plan
    case Pending => incident == WaitingApproval
    case Expired => incident == WaitingApproval
    case Executing => incident == Remediating
    case Succeeded => incident == Resolved
    case PlanFailed => incident == Failed
    case _ => false
  }

  /** One plan per incident, in a status that agrees with the incident's; without a plan an incident
    * is open or resolved.
    */
  ghost predicate PlansMatch(s: Store) {
    && (forall p :: 0 <= p < |s.plans| ==>
          s.plans[p].incident < |s.incidents|
              && StatusesAgree(s.plans[p].status, s.incidents[s.plans[p].incident].status))
    && (forall p, q :: 0 <= p < q < |s.plans| ==> s.plans[p].incident != s.plans[q].incident)
    && (forall i :: 0 <= i < |s.incidents| && !HasPlan(s, i) ==>
          s.incidents[i].status == Open || s.incidents[i].status == Resolved)
  }

  predicate Begun(plan: PlanStatus) {
    plan == Executing || plan == Succeeded || plan == PlanFailed
  }

  /** A run names its plan, the plan's incident, the hash of the plan's content and the approval that
    * allowed it, is found under its key, and left its plan where its own status says.
    */
  ghost predicate RunFits(c: Config, s: Store, r: int)
    requires 0 <= r < |s.runs| == |s.approvals|
  {
    var run := s.runs[r];
    && run.plan < |s.plans|
    && var plan := s.plans[run.plan];
    && run.incident == plan.incident
    && plan.status == PlanAfter(run.status)
    && s.approvals[r].plan == run.plan
    && s.approvals[r].approvedHash == run.approvedHash == c.contentHash(plan.Content())
    && run.idempotencyKey in s.actionKeys && s.actionKeys[run.idempotencyKey] == r
  }

  ghost predicate HasRun(s: Store, p: int) {
    exists r :: 0 <= r < |s.runs| && s.runs[r].plan == p
  }

  /** One run per executed plan and per key, one approval per run. */
  ghost predicate RunsMatch(c: Config, s: Store) {
    && |s.approvals| == |s.runs|
    && (forall r :: 0 <= r < |s.runs| ==> RunFits(c, s, r))
    && (forall r, q :: 0 <= r < q < |s.runs| ==> s.runs[r].plan != s.runs[q].plan)
    && (forall p :: 0 <= p < |s.plans| && Begun(s.plans[p].status) ==> HasRun(s, p))
    && (forall k :: k in s.actionKeys ==> s.actionKeys[k] < |s.runs| && s.runs[s.actionKeys[k]].idempotencyKey == k)
  }

  // ---- evidence ----------------------------------------------------------------------------

  /** One hypothesis per asset, each citing evidence the incident has, and no change cited twice. */
  ghost predicate Tidy(i: Incident) {
    && (forall h, k :: 0 <= h < k < |i.hypotheses| ==> i.hypotheses[h].assetId != i.hypotheses[k].assetId)
    && (forall h :: 0 <= h < |i.hypotheses| ==> i.hypotheses[h].evidence < |i.evidence|)
    && (forall e, f ::
          0 <= e < f < |i.evidence|
          && i.evidence[e].source == "change_event" && i.evidence[f].source == "change_event" ==>
          i.evidence[e].query != i.evidence[f].query)
  }

  // ---- monitoring --------------------------------------------------------------------------

  ghost predicate Tracked(s: Store, ruleId: string, assetId: string) {
    exists i :: 0 <= i < |s.incidents| && Tracks(s.incidents[i], ruleId, assetId)
  }

  /** Only monitoring's own incidents cite a rule; they cite one rule, have no plan, and at most one
    * of them is active per rule and asset.
    */
  ghost predicate MonitorMatch(c: Config, s: Store) {
    && (forall i, r :: 0 <= i < |s.incidents| && r in c.rules && s.incidents[i].Cites(MonitorQuery(r)) ==>
          !HasPlan(s, i))
    && (forall i, r, q :: 0 <= i < |s.incidents| && r in c.rules && q in c.rules ==>
          s.incidents[i].Cites(MonitorQuery(r)) && s.incidents[i].Cites(MonitorQuery(q)) ==> r == q)
    && (forall i, j, r, a :: 0 <= i < |s.incidents| && 0 <= j < |s.incidents| && r in c.rules ==>
          Tracks(s.incidents[i], r, a) && Tracks(s.incidents[j], r, a) ==> i == j)
  }

  /** The two stores track the same registered rules on the same assets. */
  ghost predicate TrackAlike(c: Config, s: Store, s': Store) {
    forall r, a :: r in c.rules ==> (Tracked(s', r, a) <==> Tracked(s, r, a))
  }

  /** An alert has its incident; after a full recovery there is none. */
  ghost predicate AlertsMatch(c: Config, s: Store) {
    forall r, a :: r in c.rules ==>
      && (StateAt(s.states, (r, a)).alerting ==> Tracked(s, r, a))
      && (StateAt(s.states, (r, a)).recoveryStreak >= c.rules[r].recoveryCycles ==> !Tracked(s, r, a))
  }

  ghost predicate Invariant(c: Config, s: Store) {
    && PlansMatch(s) && RunsMatch(c, s) && MonitorMatch(c, s) && AlertsMatch(c, s)
    && forall i :: 0 <= i < |s.incidents| ==> Tidy(s.incidents[i])
  }

  // ---- signals keep it ---------------------------------------------------------------------

  ghost predicate DistinctQueries(s: seq<Evidence>) {
    forall i, j :: 0 <= i < j < |s| ==> s[i].query != s[j].query
  }

  lemma {:induction false} NewQueriesAreNew(incident: Incident, more: seq<Evidence>)
    ensures forall e :: e in NewQueries(incident, more) ==> e in more && !incident.Cites(e.query)
    ensures DistinctQueries(more) ==> DistinctQueries(NewQueries(incident, more))
  {
    if more != [] {
      var n := |more| - 1;
      var front := NewQueries(incident, more[..n]);
      NewQueriesAreNew(incident, more[..n]);
      forall e | e in front ensures e in more && (DistinctQueries(more) ==> e.query != more[n].query) {
        var m :| 0 <= m < n && more[m] == e;
      }
    }
  }

  lemma CitationsDistinct(signal: Signal, events: ChangeLog)
    ensures var changes := ChangeEvidence(signal, events);
            && DistinctQueries(changes)
            && forall e :: e in changes ==> e.source == "change_event" && exists id :: e.query == ChangeQuery(id)
  {
    CitationsAreNewest(signal, events);
    var cited := Cited(signal, events);
    var changes := ChangeEvidence(signal, events);
    forall i, j | 0 <= i < j < |changes| ensures changes[i].query != changes[j].query {
      ChangeQueryInjective(cited[i].id, cited[j].id);
    }
    forall e | e in changes ensures e.source == "change_event" && exists id :: e.query == ChangeQuery(id) {
      var k :| 0 <= k < |changes| && changes[k] == e;
      assert e.query == ChangeQuery(cited[k].id);
    }
  }

  /** What a signal adds to an incident never spells a registered rule's query. */
  lemma SignalStaysOutside(c: Config, signal: Signal, events: ChangeLog, r: string)
    requires NamespaceReserved(c) && r in c.rules
    ensures MetricEvidence(signal).query != MonitorQuery(r)
    ensures forall e :: e in ChangeEvidence(signal, events) ==> e.query != MonitorQuery(r)
  {
    NamespaceExact(r);
    CitationsDistinct(signal, events);
    forall e | e in ChangeEvidence(signal, events) ensures e.query != MonitorQuery(r) {
      var id :| e.query == ChangeQuery(id);
      ChangeIsNotMonitor(id, r);
    }
  }

  /** Merging adds no citation of a query that neither the signal nor a change spells, and drops none. */
  lemma MergeAddsOnly(incident: Incident, signal: Signal, score: real, changes: seq<Evidence>, now: int, q: string)
    requires MetricEvidence(signal).query != q && forall e :: e in changes ==> e.query != q
    ensures Merge(incident, signal, score, changes, now).Cites(q) <==> incident.Cites(q)
  {
    var merged := Merge(incident, signal, score, changes, now);
    var more, n := NewQueries(incident, changes), |incident.evidence|;
    NewQueriesAreNew(incident, changes);
    forall e | n < e < |merged.evidence| ensures merged.evidence[e].query != q {
      assert merged.evidence[e] == more[e - n - 1];
      assert more[e - n - 1] in more;
    }
    if e :| 0 <= e < n && incident.evidence[e].query == q {
      assert merged.evidence[e].query == q;
    }
  }

  lemma MergeCites(c: Config, incident: Incident, signal: Signal, score: real, events: ChangeLog, now: int, r: string)
    requires NamespaceReserved(c) && r in c.rules
    ensures Merge(incident, signal, score, ChangeEvidence(signal, events), now).Cites(MonitorQuery(r))
            <==> incident.Cites(MonitorQuery(r))
  {
    SignalStaysOutside(c, signal, events, r);
    MergeAddsOnly(incident, signal, score, ChangeEvidence(signal, events), now, MonitorQuery(r));
  }

  lemma MergeIsTidy(incident: Incident, signal: Signal, score: real, events: ChangeLog, now: int)
    requires Tidy(incident)
    ensures Tidy(Merge(incident, signal, score, ChangeEvidence(signal, events), now))
  {
    var changes := ChangeEvidence(signal, events);
    CitationsDistinct(signal, events);
    NewQueriesAreNew(incident, changes);
    var more := NewQueries(incident, changes);
    var merged := Merge(incident, signal, score, changes, now);
    var n := |incident.evidence|;
    forall e, f | 0 <= e < f < |merged.evidence| && merged.evidence[e].source == "change_event"
      && merged.evidence[f].source == "change_event"
      ensures merged.evidence[e].query != merged.evidence[f].query
    {
      assert merged.evidence[n].source == "prometheus";
      if f > n {
        assert merged.evidence[f] == more[f - n - 1] && more[f - n - 1] in more;
        if e > n { assert merged.evidence[e] == more[e - n - 1]; }
        if e < n { assert incident.evidence[e].query != more[f - n - 1].query; }
      }
    }
  }

  lemma NewIncidentFits(c: Config, signal: Signal, detection: Detection, events: ChangeLog, now: int)
    requires NamespaceReserved(c)
    ensures var i := NewIncident(signal, detection, ChangeEvidence(signal, events), now);
            Tidy(i) && forall r :: r in c.rules ==> !i.Cites(MonitorQuery(r))
  {
    var changes := ChangeEvidence(signal, events);
    var i := NewIncident(signal, detection, changes, now);
    CitationsDistinct(signal, events);
    forall r | r in c.rules ensures !i.Cites(MonitorQuery(r)) {
      SignalStaysOutside(c, signal, events, r);
      forall e | 0 <= e < |i.evidence| ensures i.evidence[e].query != MonitorQuery(r) {
        if e > 0 { assert i.evidence[e] == changes[e - 1] && changes[e - 1] in changes; }
      }
    }
  }

  /** The two stores' incidents track the same rules, as far as incidents of the first go. */
  lemma SameTracking(c: Config, s: Store, s': Store)
    requires AlertsMatch(c, s) && s'.states == s.states && |s'.incidents| >= |s.incidents|
    requires forall k, r, a :: 0 <= k < |s.incidents| && r in c.rules ==>
               (Tracks(s'.incidents[k], r, a) <==> Tracks(s.incidents[k], r, a))
    requires forall k, r, a :: |s.incidents| <= k < |s'.incidents| && r in c.rules ==> !Tracks(s'.incidents[k], r, a)
    ensures AlertsMatch(c, s')
    ensures TrackAlike(c, s, s')
  {
    forall r, a | r in c.rules ensures Tracked(s', r, a) <==> Tracked(s, r, a) {
      if k :| 0 <= k < |s.incidents| && Tracks(s.incidents[k], r, a) { assert Tracks(s'.incidents[k], r, a); }
      if k :| 0 <= k < |s'.incidents| && Tracks(s'.incidents[k], r, a) { assert Tracks(s.incidents[k], r, a); }
    }
  }

  lemma SamePlans(s: Store, s': Store)
    requires s.plans <= s'.plans && forall p :: |s.plans| <= p < |s'.plans| ==> s'.plans[p].incident >= |s.incidents|
    ensures forall k :: 0 <= k < |s.incidents| ==> (HasPlan(s', k) <==> HasPlan(s, k))
  {
    forall k | 0 <= k < |s.incidents| ensures HasPlan(s', k) <==> HasPlan(s, k) {
      if p :| 0 <= p < |s.plans| && s.plans[p].incident == k { assert s'.plans[p].incident == k; }
    }
  }

  /** No run, approval or key changed, and no executed plan did. */
  lemma SameRuns(c: Config, s: Store, s': Store)
    requires RunsMatch(c, s) && s'.runs == s.runs && s'.approvals == s.approvals && s'.actionKeys == s.actionKeys
    requires |s'.plans| >= |s.plans|
    requires forall p :: 0 <= p < |s.plans| && Begun(s.plans[p].status) ==> s'.plans[p] == s.plans[p]
    requires forall p :: 0 <= p < |s'.plans| && Begun(s'.plans[p].status) ==> p < |s.plans| && s.plans[p] == s'.plans[p]
    ensures RunsMatch(c, s')
  {
    forall r | 0 <= r < |s.runs| ensures RunFits(c, s', r) { assert RunFits(c, s, r); }
    forall p | 0 <= p < |s'.plans| && Begun(s'.plans[p].status) ensures HasRun(s', p) { assert HasRun(s, p); }
  }

  /** Replacing an incident by one of the same asset and status, citing the same rules. */
  lemma ReplaceKeeps(c: Config, s: Store, i: nat, incident: Incident)
    requires Invariant(c, s) && i < |s.incidents| && Tidy(incident)
    requires incident.assetId == s.incidents[i].assetId && incident.status == s.incidents[i].status
    requires forall r :: r in c.rules ==> (incident.Cites(MonitorQuery(r)) <==> s.incidents[i].Cites(MonitorQuery(r)))
    ensures Invariant(c, s.(incidents := s.incidents[i := incident]))
    ensures TrackAlike(c, s, s.(incidents := s.incidents[i := incident]))
  {
    var s' := s.(incidents := s.incidents[i := incident]);
    SamePlans(s, s');
    forall k, r, a | 0 <= k < |s.incidents| && r in c.rules
      ensures Tracks(s'.incidents[k], r, a) <==> Tracks(s.incidents[k], r, a)
      ensures s'.incidents[k].Cites(MonitorQuery(r)) <==> s.incidents[k].Cites(MonitorQuery(r))
    {
    }
    assert PlansMatch(s');
    SameRuns(c, s, s');
    assert MonitorMatch(c, s');
    SameTracking(c, s, s');
  }

  ghost predicate Extends(s: Store, s': Store, incident: Incident, plans: seq<Plan>) {
    && s' == s.(incidents := s.incidents + [incident], plans := s.plans + plans)
    && ((plans == [] && incident.status == Open)
        || (|plans| == 1 && plans[0].incident == |s.incidents| && plans[0].status == Pending
            && incident.status == WaitingApproval))
  }

  lemma AddKeepsPlans(s: Store, s': Store, incident: Incident, plans: seq<Plan>)
    requires PlansMatch(s) && Extends(s, s', incident, plans)
    ensures PlansMatch(s')
  {
    var n := |s.incidents|;
    assert s'.incidents[..n] == s.incidents && s'.plans[..|s.plans|] == s.plans;
    SamePlans(s, s');
    if plans != [] { assert s'.plans[|s.plans|].incident == n; }
  }

  lemma AddKeepsRuns(c: Config, s: Store, s': Store, incident: Incident, plans: seq<Plan>)
    requires RunsMatch(c, s) && Extends(s, s', incident, plans)
    ensures RunsMatch(c, s')
  {
    assert s'.plans[..|s.plans|] == s.plans;
    SameRuns(c, s, s');
  }

  lemma AddKeepsMonitor(c: Config, s: Store, s': Store, incident: Incident, plans: seq<Plan>)
    requires MonitorMatch(c, s) && AlertsMatch(c, s) && Extends(s, s', incident, plans)
    requires forall r :: r in c.rules ==> !incident.Cites(MonitorQuery(r))
    ensures MonitorMatch(c, s') && AlertsMatch(c, s')
    ensures TrackAlike(c, s, s')
  {
    SamePlans(s, s');
    SameTracking(c, s, s');
  }

  /** Adding an incident that cites no rule, alone or with the plan it waits for. */
  lemma AddKeeps(c: Config, s: Store, s': Store, incident: Incident, plans: seq<Plan>)
    requires Invariant(c, s) && Tidy(incident) && Extends(s, s', incident, plans)
    requires forall r :: r in c.rules ==> !incident.Cites(MonitorQuery(r))
    ensures Invariant(c, s')
    ensures TrackAlike(c, s, s')
  {
    AddKeepsPlans(s, s', incident, plans);
    AddKeepsRuns(c, s, s', incident, plans);
    AddKeepsMonitor(c, s, s', incident, plans);
  }

  lemma SignalMergeKeeps(c: Config, s: Store, i: nat, signal: Signal, score: real, events: ChangeLog, now: int)
    requires NamespaceReserved(c) && Invariant(c, s) && i < |s.incidents|
    ensures var merged := Merge(s.incidents[i], signal, score, ChangeEvidence(signal, events), now);
            var s' := s.(incidents := s.incidents[i := merged]);
            Invariant(c, s') && TrackAlike(c, s, s')
  {
    var merged := Merge(s.incidents[i], signal, score, ChangeEvidence(signal, events), now);
    MergeIsTidy(s.incidents[i], signal, score, events, now);
    forall r | r in c.rules ensures merged.Cites(MonitorQuery(r)) <==> s.incidents[i].Cites(MonitorQuery(r)) {
      MergeCites(c, s.incidents[i], signal, score, events, now, r);
    }
    ReplaceKeeps(c, s, i, merged);
  }

  lemma UnmatchedSignalExtends(c: Config, s: Store, signal: Signal, detection: Detection, events: ChangeLog, now: int)
    returns (incident: Incident, plans: seq<Plan>)
    requires NamespaceReserved(c) && detection.anomalous && Matching(c, signal, s.incidents).None?
    ensures Extends(s, EvaluateSignal(c, s, signal, detection, events, now).0, incident, plans)
    ensures Tidy(incident) && forall r :: r in c.rules ==> !incident.Cites(MonitorQuery(r))
  {
    NewIncidentFits(c, signal, detection, Known(c, events), now);
    incident := NewIncident(signal, detection, ChangeEvidence(signal, Known(c, events)), now);
    plans := [];
    if RealAsset(signal.assetId) && c.realActionsMode == "observe_only" {
      assert s.plans + [] == s.plans;
    } else {
      plans := [NewPlan(|s.incidents|, signal, now)];
      incident := incident.WaitForApproval(now).value;
    }
  }

  lemma MatchIsActive(signal: Signal, incidents: seq<Incident>, edges: seq<Edge>)
    requires FindMatch(signal, incidents, edges).Some?
    ensures var i := FindMatch(signal, incidents, edges).value.incident; i < |incidents| && incidents[i].Active()
  {
  }

  lemma MatchedSignalMerges(c: Config, s: Store, signal: Signal, detection: Detection, events: ChangeLog, now: int)
    returns (i: nat, score: real)
    requires detection.anomalous && Matching(c, signal, s.incidents).Some?
    ensures i < |s.incidents| && s.incidents[i].Active()
    ensures EvaluateSignal(c, s, signal, detection, events, now)
            == MergeSignal(s, i, signal, score, ChangeEvidence(signal, Known(c, events)), now)
  {
    var found := Matching(c, signal, s.incidents).value;
    MatchIsActive(signal, s.incidents, c.edges);
    i, score := found.incident, Discounted(Confidence(detection.score), found.score);
  }

  lemma SignalKeeps(c: Config, s: Store, signal: Signal, detection: Detection, events: ChangeLog, now: int, s': Store)
    requires NamespaceReserved(c) && Invariant(c, s) && s' == EvaluateSignal(c, s, signal, detection, events, now).0
    ensures Invariant(c, s')
    ensures TrackAlike(c, s, s')
  {
    if detection.anomalous {
      if Matching(c, signal, s.incidents).Some? {
        var i, score := MatchedSignalMerges(c, s, signal, detection, events, now);
        SignalMergeKeeps(c, s, i, signal, score, Known(c, events), now);
      } else {
        var incident, plans := UnmatchedSignalExtends(c, s, signal, detection, events, now);
        AddKeeps(c, s, s', incident, plans);
      }
    }
  }

  // ---- approvals keep it -------------------------------------------------------------------

  /** Settling incident `i` of plan `p`: the step an executed approval takes, in one piece. */
  ghost predicate Settles(c: Config, s: Store, s': Store, p: nat, key: string, run: ActionRun, approval: Approval,
                          now: int) {
    && p < |s.plans| && s.plans[p].status == Pending && s.plans[p].incident < |s.incidents| && key !in s.actionKeys
    && var i := s.plans[p].incident;
    && run.plan == p && run.incident == i && run.idempotencyKey == key
    && run.approvedHash == c.contentHash(s.plans[p].Content())
    && approval.plan == p && approval.approvedHash == run.approvedHash
    && s' == s.(approvals := s.approvals + [approval], runs := s.runs + [run],
                actionKeys := s.actionKeys[key := |s.runs|],
                plans := s.plans[p := s.plans[p].(status := PlanAfter(run.status))],
                incidents := s.incidents[i := s.incidents[i].(status := IncidentAfter(run.status), updatedAt := now)])
  }

  lemma SettleKeepsPlans(c: Config, s: Store, s': Store, p: nat, key: string, run: ActionRun, approval: Approval,
                         now: int)
    requires PlansMatch(s) && Settles(c, s, s', p, key, run, approval, now)
    ensures PlansMatch(s') && forall k :: HasPlan(s', k) <==> HasPlan(s, k)
  {
    assert forall q :: 0 <= q < |s.plans| ==> s'.plans[q].incident == s.plans[q].incident;
    forall k ensures HasPlan(s', k) <==> HasPlan(s, k) {
      if q :| 0 <= q < |s.plans| && s.plans[q].incident == k { assert s'.plans[q].incident == k; }
      if q :| 0 <= q < |s.plans| && s'.plans[q].incident == k { assert s.plans[q].incident == k; }
    }
    assert HasPlan(s, s.plans[p].incident);
  }

  lemma SettledRunsFit(c: Config, s: Store, s': Store, p: nat, key: string, run: ActionRun, approval: Approval,
                       now: int)
    requires RunsMatch(c, s) && Settles(c, s, s', p, key, run, approval, now)
    ensures |s'.approvals| == |s'.runs|
            && forall r :: 0 <= r < |s'.runs| ==> RunFits(c, s', r) && (r < |s.runs| ==> s.runs[r].plan != p)
  {
    var n := |s.runs|;
    assert s'.plans[p].Content() == s.plans[p].Content();
    forall r | 0 <= r <= n ensures RunFits(c, s', r) && (r < n ==> s.runs[r].plan != p) {
      if r < n {
        assert RunFits(c, s, r);
        assert s'.runs[r] == s.runs[r] && s'.approvals[r] == s.approvals[r];
      } else {
        assert s'.runs[n] == run && s'.approvals[n] == approval;
      }
    }
  }

  lemma SettledPlansHaveRuns(c: Config, s: Store, s': Store, p: nat, key: string, run: ActionRun, approval: Approval,
                             now: int, q: nat)
    requires RunsMatch(c, s) && Settles(c, s, s', p, key, run, approval, now)
    requires q < |s'.plans| && Begun(s'.plans[q].status)
    ensures HasRun(s', q)
  {
    var n := |s.runs|;
    if q == p {
      assert s'.runs[n].plan == q;
    } else {
      assert HasRun(s, q);
      var r :| 0 <= r < n && s.runs[r].plan == q;
      assert s'.runs[r].plan == q;
    }
  }

  lemma SettleKeepsRuns(c: Config, s: Store, s': Store, p: nat, key: string, run: ActionRun, approval: Approval,
                        now: int)
    requires RunsMatch(c, s) && Settles(c, s, s', p, key, run, approval, now)
    ensures RunsMatch(c, s')
  {
    var n := |s.runs|;
    SettledRunsFit(c, s, s', p, key, run, approval, now);
    assert s'.runs[..n] == s.runs && s'.runs[n] == run;
    forall q | 0 <= q < |s'.plans| && Begun(s'.plans[q].status) ensures HasRun(s', q) {
      SettledPlansHaveRuns(c, s, s', p, key, run, approval, now, q);
    }
    forall r, q | 0 <= r < q <= n ensures s'.runs[r].plan != s'.runs[q].plan { assert s'.runs[r] == s.runs[r]; }
    forall k | k in s'.actionKeys
      ensures s'.actionKeys[k] < |s'.runs| && s'.runs[s'.actionKeys[k]].idempotencyKey == k
    {
    }
  }

  lemma SettleKeepsMonitor(c: Config, s: Store, s': Store, p: nat, key: string, run: ActionRun, approval: Approval,
                           now: int)
    requires PlansMatch(s) && MonitorMatch(c, s) && AlertsMatch(c, s) && Settles(c, s, s', p, key, run, approval, now)
    ensures MonitorMatch(c, s') && AlertsMatch(c, s')
    ensures TrackAlike(c, s, s')
  {
    var i := s.plans[p].incident;
    assert HasPlan(s, i);
    SettleKeepsPlans(c, s, s', p, key, run, approval, now);
    assert forall q :: s'.incidents[i].Cites(q) <==> s.incidents[i].Cites(q);
    assert forall k :: 0 <= k < |s.incidents| && k != i ==> s'.incidents[k] == s.incidents[k];
    SameTracking(c, s, s');
  }

  lemma ExpireKeeps(c: Config, s: Store, p: nat)
    requires Invariant(c, s) && p < |s.plans| && s.plans[p].status == Pending
    ensures Invariant(c, s.(plans := s.plans[p := s.plans[p].(status := Expired)]))
    ensures TrackAlike(c, s, s.(plans := s.plans[p := s.plans[p].(status := Expired)]))
  {
    var s' := s.(plans := s.plans[p := s.plans[p].(status := Expired)]);
    RemarkKeepsPlans(s, s', p);
    SameRuns(c, s, s');
    SameTracking(c, s, s');
  }

  lemma RemarkKeepsPlans(s: Store, s': Store, p: nat)
    requires PlansMatch(s) && p < |s.plans| && s.plans[p].status == Pending
    requires s' == s.(plans := s.plans[p := s.plans[p].(status := Expired)])
    ensures PlansMatch(s') && forall k :: HasPlan(s', k) <==> HasPlan(s, k)
  {
    assert forall q :: 0 <= q < |s.plans| ==> s'.plans[q].incident == s.plans[q].incident;
    forall k ensures HasPlan(s', k) <==> HasPlan(s, k) {
      if q :| 0 <= q < |s.plans| && s.plans[q].incident == k { assert s'.plans[q].incident == k; }
      if q :| 0 <= q < |s.plans| && s'.plans[q].incident == k { assert s.plans[q].incident == k; }
    }
  }

  /** Approval was given, whether or not a call on the way raised. */
  predicate Granted(r: Result<nat, ServiceError>) {
    r.Ok? || r.error.CallRaised?
  }

  /** A granted approval moves run, plan and incident together. */
  lemma ApprovalSettles(c: Config, s: Store, w: Remediation.World, p: nat, approver: string, hash: string, key: string,
                        now: int)
    requires PlansMatch(s) && key !in s.actionKeys && Granted(Approve(c, s, w, p, approver, hash, key, now).1)
    ensures var s' := Approve(c, s, w, p, approver, hash, key, now).0;
            |s'.runs| == |s.runs| + 1
            && Settles(c, s, s', p, key, s'.runs[|s.runs|], Approval(p, approver, hash, now), now)
  {
  }

  lemma ApprovalKeeps(c: Config, s: Store, w: Remediation.World, p: nat, approver: string, hash: string, key: string,
                      now: int)
    requires Invariant(c, s)
    ensures Invariant(c, Approve(c, s, w, p, approver, hash, key, now).0)
    ensures TrackAlike(c, s, Approve(c, s, w, p, approver, hash, key, now).0)
  {
    var (s', r) := Approve(c, s, w, p, approver, hash, key, now);
    if key in s.actionKeys {
    } else if Granted(r) {
      ApprovalSettles(c, s, w, p, approver, hash, key, now);
      var run := s'.runs[|s.runs|];
      SettleKeepsPlans(c, s, s', p, key, run, Approval(p, approver, hash, now), now);
      SettleKeepsRuns(c, s, s', p, key, run, Approval(p, approver, hash, now), now);
      SettleKeepsMonitor(c, s, s', p, key, run, Approval(p, approver, hash, now), now);
    } else {
      RefusalChangesLittle(c, s, w, p, approver, hash, key, now);
      if s' != s { ExpireKeeps(c, s, p); }
    }
  }

  /** A refused call leaves the store alone, but for marking a pending plan expired: the incident of a
    * pending plan is waiting, so `start_remediation` never fails behind a saved approval.
    */
  lemma RefusalChangesLittle(c: Config, s: Store, w: Remediation.World, p: nat, approver: string, hash: string,
                             key: string, now: int)
    requires PlansMatch(s) && !Granted(Approve(c, s, w, p, approver, hash, key, now).1)
    ensures var (s', r) := Approve(c, s, w, p, approver, hash, key, now);
            if r.error.ApprovalExpired? then
              p < |s.plans| && s.plans[p].status == Pending && s.plans[p].expiresAt < now
              && s' == s.(plans := s.plans[p := s.plans[p].(status := Expired)])
            else s' == s
  {
  }

  // ---- monitoring keeps it -----------------------------------------------------------------

  lemma OtherRuleUntouched(c: Config, incident: Incident, ruleId: string, r: string)
    requires |incident.evidence| == 1
    requires var e := incident.evidence[0];
             incident.evidence == [Evidence("monitor-rule", MonitorQuery(ruleId), e.startedAt, e.endedAt)]
    ensures incident.Cites(MonitorQuery(r)) <==> r == ruleId
  {
    MonitorQueryInjective(r, ruleId);
    assert incident.evidence[0].query == MonitorQuery(ruleId);
  }

  ghost predicate Opens(s: Store, s': Store, rule: Rule, assetId: string, state: RuleState, now: int) {
    && s' == s.(incidents := s.incidents + [ObservedIncident(rule, assetId, now)],
                states := s.states[(rule.id, assetId) := state])
  }

  lemma OpenKeepsPlans(c: Config, s: Store, s': Store, rule: Rule, assetId: string, state: RuleState, now: int)
    requires PlansMatch(s) && RunsMatch(c, s) && Opens(s, s', rule, assetId, state, now)
    ensures PlansMatch(s') && RunsMatch(c, s') && !HasPlan(s', |s.incidents|)
    ensures forall k :: 0 <= k < |s.incidents| ==> (HasPlan(s', k) <==> HasPlan(s, k))
  {
    SamePlans(s, s');
    SameRuns(c, s, s');
    assert s'.incidents[..|s.incidents|] == s.incidents;
  }

  lemma OpenKeepsMonitor(c: Config, s: Store, s': Store, rule: Rule, assetId: string, state: RuleState, now: int)
    requires PlansMatch(s) && RunsMatch(c, s) && MonitorMatch(c, s) && Opens(s, s', rule, assetId, state, now)
    requires !Tracked(s, rule.id, assetId)
    ensures MonitorMatch(c, s')
  {
    var n := |s.incidents|;
    OpenKeepsPlans(c, s, s', rule, assetId, state, now);
    assert s'.incidents[..n] == s.incidents;
    forall r ensures s'.incidents[n].Cites(MonitorQuery(r)) <==> r == rule.id {
      OtherRuleUntouched(c, s'.incidents[n], rule.id, r);
    }
    forall i | 0 <= i < n ensures !Tracks(s'.incidents[i], rule.id, assetId) {
      assert s'.incidents[i] == s.incidents[i];
    }
  }

  lemma OpenKeepsAlerts(c: Config, s: Store, s': Store, rule: Rule, assetId: string, state: RuleState, now: int)
    requires AlertsMatch(c, s) && Opens(s, s', rule, assetId, state, now)
    requires RulesNamed(c) && rule.id in c.rules && c.rules[rule.id] == rule
             && state.recoveryStreak < rule.recoveryCycles
    ensures AlertsMatch(c, s')
  {
    var n := |s.incidents|;
    assert s'.incidents[..n] == s.incidents;
    forall r ensures s'.incidents[n].Cites(MonitorQuery(r)) <==> r == rule.id {
      OtherRuleUntouched(c, s'.incidents[n], rule.id, r);
    }
    assert Tracks(s'.incidents[n], rule.id, assetId);
    forall r, a | (r, a) != (rule.id, assetId) ensures Tracked(s', r, a) <==> Tracked(s, r, a) {
      if k :| 0 <= k < n && Tracks(s.incidents[k], r, a) { assert Tracks(s'.incidents[k], r, a); }
      if k :| 0 <= k <= n && Tracks(s'.incidents[k], r, a) { assert Tracks(s.incidents[k], r, a); }
    }
  }

  lemma OpenKeeps(c: Config, s: Store, s': Store, rule: Rule, assetId: string, state: RuleState, now: int)
    requires Invariant(c, s) && RulesNamed(c) && rule.id in c.rules && c.rules[rule.id] == rule
    requires Opens(s, s', rule, assetId, state, now) && !Tracked(s, rule.id, assetId)
             && state.recoveryStreak < rule.recoveryCycles
    ensures Invariant(c, s')
  {
    OpenKeepsPlans(c, s, s', rule, assetId, state, now);
    OpenKeepsMonitor(c, s, s', rule, assetId, state, now);
    OpenKeepsAlerts(c, s, s', rule, assetId, state, now);
  }

  ghost predicate Resolves(s: Store, s': Store, rule: Rule, assetId: string, state: RuleState, i: nat, now: int) {
    && i < |s.incidents| && Tracks(s.incidents[i], rule.id, assetId) && s.incidents[i].status == Open
    && s' == s.(incidents := s.incidents[i := s.incidents[i].(status := Resolved, updatedAt := now)],
                states := s.states[(rule.id, assetId) := state])
  }

  lemma ResolveKeepsPlans(c: Config, s: Store, s': Store, rule: Rule, assetId: string, state: RuleState, i: nat,
                          now: int)
    requires PlansMatch(s) && RunsMatch(c, s) && Resolves(s, s', rule, assetId, state, i, now)
    ensures PlansMatch(s') && RunsMatch(c, s')
    ensures forall k :: 0 <= k < |s.incidents| ==> (HasPlan(s', k) <==> HasPlan(s, k))
  {
    SamePlans(s, s');
    SameRuns(c, s, s');
  }

  /** Resolving takes one incident out of the tracked ones and changes no citation. */
  lemma ResolveTracks(c: Config, s: Store, s': Store, rule: Rule, assetId: string, state: RuleState, i: nat, now: int)
    requires MonitorMatch(c, s) && rule.id in c.rules && Resolves(s, s', rule, assetId, state, i, now)
    ensures forall k, q :: 0 <= k < |s.incidents| ==> (s'.incidents[k].Cites(q) <==> s.incidents[k].Cites(q))
    ensures forall k, r, a :: 0 <= k < |s.incidents| ==>
              (Tracks(s'.incidents[k], r, a) <==> Tracks(s.incidents[k], r, a) && k != i)
  {
    assert s'.incidents[i].evidence == s.incidents[i].evidence;
  }

  lemma ResolveKeepsAlerts(c: Config, s: Store, s': Store, rule: Rule, assetId: string, state: RuleState, i: nat,
                           now: int)
    requires MonitorMatch(c, s) && AlertsMatch(c, s) && rule.id in c.rules
             && Resolves(s, s', rule, assetId, state, i, now) && !state.alerting
    ensures AlertsMatch(c, s')
  {
    ResolveTracks(c, s, s', rule, assetId, state, i, now);
    forall r, a | r in c.rules && (r, a) != (rule.id, assetId) ensures Tracked(s', r, a) <==> Tracked(s, r, a) {
      if k :| 0 <= k < |s.incidents| && Tracks(s.incidents[k], r, a) { assert Tracks(s'.incidents[k], r, a); }
      if k :| 0 <= k < |s.incidents| && Tracks(s'.incidents[k], r, a) { assert Tracks(s.incidents[k], r, a); }
    }
    assert !Tracked(s', rule.id, assetId);
  }

  lemma ResolveKeeps(c: Config, s: Store, s': Store, rule: Rule, assetId: string, state: RuleState, i: nat, now: int)
    requires Invariant(c, s) && rule.id in c.rules && Resolves(s, s', rule, assetId, state, i, now) && !state.alerting
    ensures Invariant(c, s')
  {
    ResolveKeepsPlans(c, s, s', rule, assetId, state, i, now);
    ResolveTracks(c, s, s', rule, assetId, state, i, now);
    ResolveKeepsAlerts(c, s, s', rule, assetId, state, i, now);
  }

  lemma RestateKeeps(c: Config, s: Store, rule: Rule, assetId: string, state: RuleState)
    requires Invariant(c, s) && RulesNamed(c) && rule.id in c.rules && c.rules[rule.id] == rule
    requires state.alerting ==> Tracked(s, rule.id, assetId)
    requires state.recoveryStreak >= rule.recoveryCycles ==> !Tracked(s, rule.id, assetId)
    ensures Invariant(c, s.(states := s.states[(rule.id, assetId) := state]))
  {
    var s' := s.(states := s.states[(rule.id, assetId) := state]);
    SamePlans(s, s');
    forall r, a ensures Tracked(s', r, a) <==> Tracked(s, r, a) {}
    assert PlansMatch(s') && MonitorMatch(c, s');
    SameRuns(c, s, s');
  }

  lemma EvaluationKeeps(c: Config, s: Store, ruleId: string, assetId: string, breached: bool, now: int)
    requires Invariant(c, s) && RulesNamed(c) && ruleId in c.rules
    ensures Invariant(c, EvaluateRule(s, c.rules[ruleId], assetId, breached, now))
  {
    var rule := c.rules[ruleId];
    var state := Observe(rule, StateAt(s.states, (ruleId, assetId)), breached);
    var s' := EvaluateRule(s, rule, assetId, breached, now);
    var active := FirstTracking(s.incidents, ListIncidents(s.incidents), ruleId, assetId);
    assert active.Some? <==> Tracked(s, ruleId, assetId) by {
      if i :| 0 <= i < |s.incidents| && Tracks(s.incidents[i], ruleId, assetId) {
        assert i in ListIncidents(s.incidents);
      }
    }
    if state.alerting && active.None? {
      OpenKeeps(c, s, s', rule, assetId, state, now);
    } else if active.Some? && !state.alerting && !breached && state.recoveryStreak >= rule.recoveryCycles {
      assert !HasPlan(s, active.value) && s.incidents[active.value].status == Open;
      ResolveKeeps(c, s, s', rule, assetId, state, active.value, now);
    } else {
      RestateKeeps(c, s, rule, assetId, state);
    }
  }

  /** The remembered samples are nobody else's concern. */
  lemma SamplesAside(c: Config, s: Store, s': Store)
    requires Invariant(c, s) && s' == s.(samples := s'.samples)
    ensures Invariant(c, s')
    ensures forall r, a :: Tracked(s', r, a) <==> Tracked(s, r, a)
  {
    SamePlans(s, s');
    assert PlansMatch(s') && MonitorMatch(c, s');
    SameRuns(c, s, s');
    forall r, a ensures Tracked(s', r, a) <==> Tracked(s, r, a) {}
  }

  lemma MeasureKeeps(c: Config, s: Store, ruleId: string, assetId: string, sample: real, now: int)
    requires Invariant(c, s) && RulesNamed(c) && ruleId in c.rules
    ensures Invariant(c, Measure(s, c.rules[ruleId], assetId, sample, now))
  {
    var rule := c.rules[ruleId];
    var s' := s.(samples := Remember(rule, s.samples, assetId, sample, now));
    SamplesAside(c, s, s');
    EvaluationKeeps(c, s', ruleId, assetId, Breached(s, rule, assetId, sample, now), now);
  }

  // ---- every run ---------------------------------------------------------------------------

  lemma StepKeeps(c: Config, s: Store, e: Event)
    requires Invariant(c, s) && RulesNamed(c) && NamespaceReserved(c)
    ensures Invariant(c, Step(c, s, e))
  {
    match e
    case Signalled(signal, detection, events, now) => SignalKeeps(c, s, signal, detection, events, now, Step(c, s, e));
    case ApprovalRequested(w, planId, approver, hash, key, now) =>
      ApprovalKeeps(c, s, w, planId, approver, hash, key, now);
    case Measured(ruleId, assetId, sample, now) =>
      if ruleId in c.rules { MeasureKeeps(c, s, ruleId, assetId, sample, now); }
    case Restarted =>
      var s' := s.(states := map[], samples := map[]);
      SamePlans(s, s');
      assert PlansMatch(s') && MonitorMatch(c, s');
      SameRuns(c, s, s');
  }

  ghost predicate Sound(c: Config, es: seq<Event>) {
    Invariant(c, Run(c, es))
  }

  /** Whatever happens and in whatever order, the invariant holds. */
  lemma {:induction false} InvariantHolds(c: Config, es: seq<Event>)
    requires RulesNamed(c) && NamespaceReserved(c)
    ensures Sound(c, es)
  {
    if |es| > 0 {
      InvariantHolds(c, es[..|es| - 1]);
      StepKeeps(c, Run(c, es[..|es| - 1]), es[|es| - 1]);
    }
  }
}
