/** What callers of `Execute` may rely on, under every interleaving. */
module ActionTheorems {
  import opened Outcomes
  import opened CanonicalTask
  import opened ActionServiceCore
  import opened ActionRuns

  // ---- refinement of an atomic memo table --------------------------------------------------

  /** The simple form: a table from keys to a claimed fingerprint and, later, one value. */
  datatype Slot = Claimed(fingerprint: string) | Filled(fingerprint: string, result: ActionResult)

  datatype MemoStep =
    | Stutter
    | Claim(key: string, fingerprint: string)
    | Fill(key: string, result: ActionResult)
    | Answer(key: string, fingerprint: string, result: ActionResult)
    | Refuse(key: string, fingerprint: string)

  ghost predicate MemoNext(m: map<string, Slot>, m': map<string, Slot>, step: MemoStep) {
    match step
    case Stutter => m' == m
    case Claim(key, fingerprint) => key !in m && m' == m[key := Claimed(fingerprint)]
    case Fill(key, result) => key in m && m[key].Claimed? && m' == m[key := Filled(m[key].fingerprint, result)]
    case Answer(key, fingerprint, result) => key in m && m[key] == Filled(fingerprint, result) && m' == m
    case Refuse(key, fingerprint) => key in m && m[key].fingerprint != fingerprint && m' == m
  }

  function SlotOf(r: Record): Slot {
    match r
    case Running(f) => Claimed(f)
    case Finished(f, result, _) => Filled(f, result)
  }

  function Memo(s: State): map<string, Slot> {
    map k | k in s.tables.records :: SlotOf(s.tables.records[k])
  }

  /** The memo step one event amounts to, read off what the call shows afterwards. */
  function MemoStepOf(g: Gate, s: State, e: Event): MemoStep {
    if !e.Advance? || e.id !in s.calls then Stutter
    else
      var before := s.calls[e.id];
      var after := Step(g, s, e).calls[e.id].phase;
      var key, fingerprint := before.job.idempotencyKey, g.fingerprint(before.job);
      if after == before.phase then Stutter
      else
        match after
        case Leading => Claim(key, fingerprint)
        case Published(result) => Fill(key, result)
        case Replied(Ok(result)) => Answer(key, fingerprint, result)
        case Replied(Err(KeyBoundToOtherTask)) =>
          if before.phase.Checked? then Refuse(key, fingerprint) else Stutter
        case _ => Stutter
  }

  lemma {:induction false} RefinesMemoTable(g: Gate, es: seq<Event>, e: Event)
    requires Sound(g)
    ensures var s := Run(g, INITIAL, es);
            MemoNext(Memo(s), Memo(Run(g, INITIAL, es + [e])), MemoStepOf(g, s, e))
  {
    InvariantHolds(g, es);
    var s := Run(g, INITIAL, es);
    assert (es + [e])[..|es|] == es;
    StepRefinesMemo(g, s, e);
  }

  lemma StepRefinesMemo(g: Gate, s: State, e: Event)
    requires Sound(g) && Invariant(g, s)
    ensures MemoNext(Memo(s), Memo(Step(g, s, e)), MemoStepOf(g, s, e))
  {
    if e.Advance? && e.id in s.calls {
      var s' := Step(g, s, e);
      var before, after := s.calls[e.id], s'.calls[e.id].phase;
      var key := before.job.idempotencyKey;
      if before.Owns(key) || before.phase.Waiting? || before.phase.Published? { assert key in s.tables.records; }
      match e.move
      case Enter => EnterRefinesMemo(g, s, e.id);
      case Publish =>
        if before.phase.Acted? {
          assert before.Owns(key);
          assert Memo(s') == Memo(s)[key := Filled(Memo(s)[key].fingerprint, before.phase.result)];
        }
      case _ => assert s'.tables == s.tables;
    }
  }

  lemma EnterRefinesMemo(g: Gate, s: State, id: CallId)
    requires id in s.calls
    ensures var e := Advance(id, Enter); MemoNext(Memo(s), Memo(Step(g, s, e)), MemoStepOf(g, s, e))
  {
    var s' := Step(g, s, Advance(id, Enter));
    var key := s.calls[id].job.idempotencyKey;
    if s.calls[id].phase.Checked? && s'.calls[id].phase.Leading? {
      assert Memo(s') == Memo(s)[key := Claimed(g.fingerprint(s.calls[id].job))];
    } else {
      assert s'.tables.records == s.tables.records;
    }
  }

  // ---- at most once, one result, nobody orphaned -------------------------------------------

  /** The executor runs at most once per key, only on jobs that passed every check, and has run
    * exactly once for each key whose result is out.
    */
  lemma ExecutorRunsOnce(g: Gate, es: seq<Event>)
    requires Sound(g)
    ensures var s := Run(g, INITIAL, es);
            && (forall i, j, k :: RanAt(s.log, i, k) && RanAt(s.log, j, k) ==> i == j)
            && (forall i :: 0 <= i < |s.log| && s.log[i].ExecutorRan? ==> g.authorised(s.log[i].job))
            && (forall k :: k in s.tables.records && s.tables.records[k].Finished? ==> exists i :: RanAt(s.log, i, k))
  {
    InvariantHolds(g, es);
    var s := Run(g, INITIAL, es);
    forall k | k in s.tables.records && s.tables.records[k].Finished? ensures exists i :: RanAt(s.log, i, k) {
      assert HasActed(s, k) && HasRun(s, k);
    }
  }

  /** All successful replies under one key carry one result, the published one, and each comes after
    * its publication.
    */
  lemma OneResultPerKey(g: Gate, es: seq<Event>)
    requires Sound(g)
    ensures var s := Run(g, INITIAL, es);
            && (forall j :: 0 <= j < |s.log| && s.log[j].CallAnswered? ==>
                  exists i :: i < j && PublishedAt(s.log, i, s.log[j].key, s.log[j].result))
            && (forall i, j ::
                  0 <= i < |s.log| && 0 <= j < |s.log| && s.log[i].CallAnswered? && s.log[j].CallAnswered? ==>
                  s.log[i].key == s.log[j].key ==> s.log[i].result == s.log[j].result)
  {
    InvariantHolds(g, es);
    var s := Run(g, INITIAL, es);
    forall j | 0 <= j < |s.log| && s.log[j].CallAnswered?
      ensures s.log[j].key in s.tables.records && s.tables.records[s.log[j].key].Finished?
              && s.tables.records[s.log[j].key].result == s.log[j].result
    {
      var i :| i < j && PublishedAt(s.log, i, s.log[j].key, s.log[j].result);
      assert s.log[i].ResultPublished?;
    }
  }

  // ---- results are what the executor returned ----------------------------------------------

  /** The executor's own result, or a failed one that reports its error. */
  ghost predicate Carries(result: ActionResult, run: Note)
    requires run.ExecutorRan?
  {
    match run.outcome
    case Ok(returned) => result == returned
    case Err(message) =>
      !result.succeeded && result.message == message && result.jobId == run.job.id && result.finishedAt == run.at
  }

  /** The key's execution stands in the log before position `n`, and the result is its outcome. */
  ghost predicate RanWith(log: seq<Note>, n: int, key: string, result: ActionResult) {
    exists r :: 0 <= r < n && RanAt(log, r, key) && Carries(result, log[r])
  }

  ghost predicate OutcomesMatch(s: State) {
    && (forall i :: i in s.calls && s.calls[i].phase.Acted? ==>
          RanWith(s.log, |s.log|, s.calls[i].job.idempotencyKey, s.calls[i].phase.result))
    && (forall p :: 0 <= p < |s.log| && s.log[p].ResultPublished? ==> RanWith(s.log, p, s.log[p].key, s.log[p].result))
  }

  lemma LongerLog(log: seq<Note>, log': seq<Note>, n: int, n': int, key: string, result: ActionResult)
    requires log <= log' && n <= n' && RanWith(log, n, key, result)
    ensures RanWith(log', n', key, result)
  {
    var r :| 0 <= r < n && RanAt(log, r, key) && Carries(result, log[r]);
    assert RanAt(log', r, key) && Carries(result, log'[r]);
  }

  lemma ActLogsOutcome(g: Gate, s: State, id: CallId, move: Move)
    requires id in s.calls && move.Act? && s.calls[id].phase.Leading?
    ensures var s' := Step(g, s, Advance(id, move));
            RanWith(s'.log, |s'.log|, s.calls[id].job.idempotencyKey, s'.calls[id].phase.result)
  {
    var s' := Step(g, s, Advance(id, move));
    assert RanAt(s'.log, |s.log|, s.calls[id].job.idempotencyKey);
    assert Carries(s'.calls[id].phase.result, s'.log[|s.log|]);
  }

  lemma StepKeepsOutcomes(g: Gate, s: State, e: Event)
    requires OutcomesMatch(s)
    ensures OutcomesMatch(Step(g, s, e))
  {
    var s' := Step(g, s, e);
    assert s.log <= s'.log;
    forall i | i in s'.calls && s'.calls[i].phase.Acted?
      ensures RanWith(s'.log, |s'.log|, s'.calls[i].job.idempotencyKey, s'.calls[i].phase.result)
    {
      if i in s.calls && s'.calls[i] == s.calls[i] {
        LongerLog(s.log, s'.log, |s.log|, |s'.log|, s.calls[i].job.idempotencyKey, s.calls[i].phase.result);
      } else {
        ActLogsOutcome(g, s, i, e.move);
      }
    }
    forall p | 0 <= p < |s'.log| && s'.log[p].ResultPublished?
      ensures RanWith(s'.log, p, s'.log[p].key, s'.log[p].result)
    {
      if p < |s.log| {
        LongerLog(s.log, s'.log, p, p, s.log[p].key, s.log[p].result);
      } else {
        LongerLog(s.log, s'.log, |s.log|, p, s.calls[e.id].job.idempotencyKey, s.calls[e.id].phase.result);
      }
    }
  }

  lemma {:induction false} OutcomesHold(g: Gate, es: seq<Event>)
    ensures OutcomesMatch(Run(g, INITIAL, es))
  {
    if es != [] {
      OutcomesHold(g, es[..|es| - 1]);
      StepKeepsOutcomes(g, Run(g, INITIAL, es[..|es| - 1]), es[|es| - 1]);
    }
  }

  /** Over every run, each published result and each successful answer comes after its key's one execution
    * and is what the executor returned, or a failure that carries the executor's error.
    */
  lemma ResultsAreOutcomes(g: Gate, es: seq<Event>)
    requires Sound(g)
    ensures var s := Run(g, INITIAL, es);
            && (forall p :: 0 <= p < |s.log| && (s.log[p].ResultPublished? || s.log[p].CallAnswered?) ==>
                  RanWith(s.log, p, s.log[p].key, s.log[p].result))
            && (forall i, j, k :: RanAt(s.log, i, k) && RanAt(s.log, j, k) ==> i == j)
  {
    OutcomesHold(g, es);
    InvariantHolds(g, es);
    ExecutorRunsOnce(g, es);
    var s := Run(g, INITIAL, es);
    assert AnswersPublished(s);
    forall p | 0 <= p < |s.log| && s.log[p].CallAnswered? ensures RanWith(s.log, p, s.log[p].key, s.log[p].result) {
      var i :| i < p && PublishedAt(s.log, i, s.log[p].key, s.log[p].result);
      assert s.log[i].ResultPublished?;
      LongerLog(s.log, s.log, i, p, s.log[p].key, s.log[p].result);
    }
  }

  // ---- only checked jobs run ---------------------------------------------------------------

  ghost predicate PassedAt(log: seq<Note>, i: int, job: Job) {
    0 <= i < |log| && log[i].ChecksPassed? && log[i].job == job
  }

  /** The job passed its checks in the log before position `n`. */
  ghost predicate PassedBefore(log: seq<Note>, n: int, job: Job) {
    exists i :: i < n && PassedAt(log, i, job)
  }

  ghost predicate CallsPassed(s: State) {
    forall i :: i in s.calls && (s.calls[i].phase.Checked? || s.calls[i].phase.Leading?) ==>
      PassedBefore(s.log, |s.log|, s.calls[i].job)
  }

  ghost predicate RunsPassed(s: State) {
    forall i :: 0 <= i < |s.log| && s.log[i].ExecutorRan? ==> PassedBefore(s.log, i, s.log[i].job)
  }

  ghost predicate PassesFit(c: Config, s: State) {
    forall i :: 0 <= i < |s.log| && s.log[i].ChecksPassed? ==>
      Authorised(c, s.log[i].job) && s.log[i].at < s.log[i].job.expiresAt
  }

  lemma StillPassed(log: seq<Note>, log': seq<Note>, n: int, n': int, job: Job)
    requires log <= log' && n <= n' && PassedBefore(log, n, job)
    ensures PassedBefore(log', n', job)
  {
    var i :| i < n && PassedAt(log, i, job);
    assert PassedAt(log', i, job);
  }

  lemma StepKeepsCallsPassed(g: Gate, s: State, e: Event)
    requires CallsPassed(s)
    ensures CallsPassed(Step(g, s, e))
  {
    var s' := Step(g, s, e);
    forall i | i in s'.calls && (s'.calls[i].phase.Checked? || s'.calls[i].phase.Leading?)
      ensures PassedBefore(s'.log, |s'.log|, s'.calls[i].job)
    {
      if s.calls[i].phase.Arrived? {
        assert PassedAt(s'.log, |s.log|, s'.calls[i].job);
      } else {
        StillPassed(s.log, s'.log, |s.log|, |s'.log|, s.calls[i].job);
      }
    }
  }

  lemma StepKeepsRunsPassed(g: Gate, s: State, e: Event)
    requires CallsPassed(s) && RunsPassed(s)
    ensures RunsPassed(Step(g, s, e))
  {
    var s' := Step(g, s, e);
    forall i | 0 <= i < |s'.log| && s'.log[i].ExecutorRan? ensures PassedBefore(s'.log, i, s'.log[i].job) {
      StillPassed(s.log, s'.log, if i < |s.log| then i else |s.log|, i, s'.log[i].job);
    }
  }

  lemma StepKeepsPassesFit(c: Config, s: State, e: Event)
    requires PassesFit(c, s)
    ensures PassesFit(c, Step(GateOf(c), s, e))
  {
  }

  lemma {:induction false} ChecksHold(c: Config, es: seq<Event>)
    ensures var s := Run(GateOf(c), INITIAL, es); CallsPassed(s) && RunsPassed(s) && PassesFit(c, s)
  {
    if es != [] {
      var s, e := Run(GateOf(c), INITIAL, es[..|es| - 1]), es[|es| - 1];
      ChecksHold(c, es[..|es| - 1]);
      StepKeepsCallsPassed(GateOf(c), s, e);
      StepKeepsRunsPassed(GateOf(c), s, e);
      StepKeepsPassesFit(c, s, e);
    }
  }

  /** What an executed job looked like when it was checked. */
  ghost predicate FitToRun(c: Config, job: Job, at: int) {
    && c.secret.Some? && Message(c.primitives, job).Ok?
    && job.signature == c.primitives.hmac(c.secret.value, Message(c.primitives, job).value)
    && |job.approvedHash| == 64
    && (forall i :: 0 <= i < 64 ==> '0' <= job.approvedHash[i] <= '9' || 'a' <= job.approvedHash[i] <= 'f')
    && at < job.expiresAt && InScope(c, job)
  }

  /** Over every run the executor sees only jobs that some earlier check found signed, approved, unexpired
    * and in scope.
    */
  lemma ExecutedJobsAreFit(c: Config, es: seq<Event>, i: nat)
    requires var s := Run(GateOf(c), INITIAL, es); i < |s.log| && s.log[i].ExecutorRan?
    ensures var s := Run(GateOf(c), INITIAL, es);
            exists k :: k < i && PassedAt(s.log, k, s.log[i].job) && FitToRun(c, s.log[i].job, s.log[k].at)
  {
    ChecksHold(c, es);
    var s := Run(GateOf(c), INITIAL, es);
    var k :| k < i && PassedAt(s.log, k, s.log[i].job);
    assert Authorised(c, s.log[k].job);
    AuthorisedIsFit(c, s.log[i].job, s.log[k].at);
  }

  lemma AuthorisedIsFit(c: Config, job: Job, at: int)
    requires Authorised(c, job) && at < job.expiresAt
    ensures FitToRun(c, job, at)
  {
    forall i | 0 <= i < |job.approvedHash|
      ensures '0' <= job.approvedHash[i] <= '9' || 'a' <= job.approvedHash[i] <= 'f'
    {
      assert job.approvedHash[i] in job.approvedHash;
    }
  }

  /** Past checks and nonce a job with a new key leads, one whose key is bound to its own task joins, and
    * one whose key is bound to another is refused.
    */
  lemma AdmissionExact(g: Gate, s: State, id: CallId)
    requires id in s.calls && s.calls[id].phase.Checked?
    requires Step(g, s, Advance(id, Enter)).calls[id].phase != Replied(Err(TaskAuthentication))
    ensures var s' := Step(g, s, Advance(id, Enter));
            var job, phase := s.calls[id].job, s'.calls[id].phase;
            var key := job.idempotencyKey;
            && (phase == Leading <==> key !in s.tables.records)
            && (phase == Waiting
                <==> key in s.tables.records && s.tables.records[key].fingerprint == g.fingerprint(job))
            && (phase == Replied(Err(KeyBoundToOtherTask)) <==>
                  key in s.tables.records && s.tables.records[key].fingerprint != g.fingerprint(job))
            && key in s'.tables.records
            && (key !in s.tables.records ==> s'.tables.records == s.tables.records[key := Running(g.fingerprint(job))])
            && (key in s.tables.records ==> s'.tables.records == s.tables.records)
  {
  }

  /** The owner's publication finishes the record with its result at the current time and touches no other;
    * what is returned is what was published, and what a duplicate wakes up to is the record's result.
    */
  lemma AnswersExact(g: Gate, s: State, id: CallId)
    requires id in s.calls && s.calls[id].job.idempotencyKey in s.tables.records
    ensures var call, key := s.calls[id], s.calls[id].job.idempotencyKey;
            var record := s.tables.records[key];
            var published, returned := Step(g, s, Advance(id, Publish)), Step(g, s, Advance(id, Return));
            var woken, cancelled := Step(g, s, Advance(id, Wake)), Step(g, s, Advance(id, Cancel));
            && (call.phase.Acted? ==>
                  published.tables.records
                  == s.tables.records[key := Finished(record.fingerprint, call.phase.result, s.now)]
                  && published.tables.nonces == s.tables.nonces
                  && published.calls[id].phase == Published(call.phase.result))
            && (call.phase.Published? ==>
                  returned.calls[id].phase == Replied(Ok(call.phase.result)) && returned.tables == s.tables)
            && (call.phase.Waiting? && record.Finished? ==>
                  woken.calls[id].phase == Replied(Ok(record.result)) && woken.tables == s.tables)
            && (call.phase.Waiting? && record.Running? ==> woken == s)
            && (call.phase.Waiting? ==>
                  cancelled.calls[id].phase == Replied(Err(ContextDone)) && cancelled.tables == s.tables)
  {
  }

  ghost predicate SameBinding(r: map<string, Record>, r': map<string, Record>, key: string)
    requires key in r
  {
    && key in r'
    && r'[key].fingerprint == r[key].fingerprint
    && (r[key].Finished? ==> r'[key] == r[key])
  }

  lemma StepKeepsBinding(g: Gate, s: State, e: Event, key: string)
    requires OwnersMatch(s) && key in s.tables.records
    ensures SameBinding(s.tables.records, Step(g, s, e).tables.records, key)
  {
    if e.Advance? && e.id in s.calls {
      if e.move.Publish? && s.calls[e.id].phase.Acted? {
        assert s.calls[e.id].Owns(s.calls[e.id].job.idempotencyKey);
      }
    }
  }

  /** A key's fingerprint never changes, and a finished record is never touched again. */
  lemma {:induction false} BindingsAreFinal(g: Gate, s: State, es: seq<Event>, key: string)
    requires Sound(g) && Invariant(g, s) && key in s.tables.records
    ensures Invariant(g, Run(g, s, es)) && SameBinding(s.tables.records, Run(g, s, es).tables.records, key)
  {
    if es != [] {
      BindingsAreFinal(g, s, es[..|es| - 1], key);
      StepKeepsInvariant(g, Run(g, s, es[..|es| - 1]), es[|es| - 1]);
      StepKeepsBinding(g, Run(g, s, es[..|es| - 1]), es[|es| - 1], key);
    }
  }

  lemma {:induction false} RunCons(g: Gate, s: State, e: Event, es: seq<Event>)
    ensures Run(g, s, [e] + es) == Run(g, Step(g, s, e), es)
  {
    if es == [] {
      assert ([e] + es)[..0] == [];
    } else {
      RunCons(g, s, e, es[..|es| - 1]);
      assert ([e] + es)[..|es|] == [e] + es[..|es| - 1];
    }
  }

  ghost predicate AnsweredFromRecord(s: State, id: CallId, key: string) {
    && id in s.calls && s.calls[id].phase.Replied? && s.calls[id].phase.reply.Ok?
    && key in s.tables.records && s.tables.records[key].Finished?
    && s.calls[id].phase.reply.value == s.tables.records[key].result
  }

  ghost predicate Waits(s: State, waiter: CallId, key: string) {
    && waiter in s.calls && s.calls[waiter].phase.Waiting? && s.calls[waiter].job.idempotencyKey == key
    && key in s.tables.records
  }

  lemma WaiterWakes(g: Gate, s: State, waiter: CallId, key: string) returns (schedule: seq<Event>)
    requires Waits(s, waiter, key) && s.tables.records[key].Finished?
    ensures schedule == [Advance(waiter, Wake)]
    ensures AnsweredFromRecord(Run(g, s, schedule), waiter, key)
  {
    schedule := [Advance(waiter, Wake)];
    assert AnsweredFromRecord(Step(g, s, schedule[0]), waiter, key);
    RunCons(g, s, schedule[0], []);
    assert schedule == [schedule[0]] + [];
  }

  lemma OwnerPublishes(g: Gate, s: State, waiter: CallId, owner: CallId, key: string) returns (schedule: seq<Event>)
    requires Waits(s, waiter, key)
    requires owner in s.calls && s.calls[owner].phase.Acted? && s.calls[owner].job.idempotencyKey == key
    ensures schedule == [Advance(owner, Publish), Advance(waiter, Wake)]
    ensures AnsweredFromRecord(Run(g, s, schedule), waiter, key)
  {
    var publish := Advance(owner, Publish);
    var s' := Step(g, s, publish);
    assert Waits(s', waiter, key) && s'.tables.records[key].Finished?;
    var rest := WaiterWakes(g, s', waiter, key);
    RunCons(g, s, publish, rest);
    schedule := [publish] + rest;
  }

  lemma OwnerActs(g: Gate, s: State, waiter: CallId, owner: CallId, key: string, outcome: Result<ActionResult, string>)
    returns (schedule: seq<Event>)
    requires Waits(s, waiter, key)
    requires owner in s.calls && s.calls[owner].phase.Leading? && s.calls[owner].job.idempotencyKey == key
    ensures schedule == [Advance(owner, Act(outcome)), Advance(owner, Publish), Advance(waiter, Wake)]
    ensures AnsweredFromRecord(Run(g, s, schedule), waiter, key)
  {
    var act := Advance(owner, Act(outcome));
    var s' := Step(g, s, act);
    assert Waits(s', waiter, key) && s'.calls[owner].phase.Acted? && s'.calls[owner].job == s.calls[owner].job;
    var rest := OwnerPublishes(g, s', waiter, owner, key);
    RunCons(g, s, act, rest);
    schedule := [act] + rest;
  }

  /** A waiting duplicate is never orphaned: whatever the executor answers, at most two steps of the
    * record's one owner finish it, and the waiter's next step then returns the owner's result.
    */
  lemma WaiterCanFinish(g: Gate, s: State, waiter: CallId, outcome: Result<ActionResult, string>)
    returns (schedule: seq<Event>)
    requires Sound(g) && Invariant(g, s) && waiter in s.calls && s.calls[waiter].phase.Waiting?
    ensures var key, wake := s.calls[waiter].job.idempotencyKey, Advance(waiter, Wake);
            && key in s.tables.records
            && (s.tables.records[key].Finished? ==> schedule == [wake])
            && (s.tables.records[key].Running? ==>
                  exists owner :: owner in s.calls && s.calls[owner].Owns(key)
                    && schedule == (if s.calls[owner].phase.Leading? then [Advance(owner, Act(outcome))] else [])
                       + [Advance(owner, Publish), wake])
    ensures AnsweredFromRecord(Run(g, s, schedule), waiter, s.calls[waiter].job.idempotencyKey)
  {
    var key := s.calls[waiter].job.idempotencyKey;
    assert Waits(s, waiter, key);
    if s.tables.records[key].Finished? {
      schedule := WaiterWakes(g, s, waiter, key);
    } else {
      var owner :| owner in s.calls && s.calls[owner].Owns(key);
      if s.calls[owner].phase.Acted? {
        schedule := OwnerPublishes(g, s, waiter, owner, key);
      } else {
        schedule := OwnerActs(g, s, waiter, owner, key, outcome);
      }
    }
  }

  lemma AuthorisedIsComplete(c: Config, job: Job)
    requires Authorised(c, job)
    ensures Complete(job)
  {
  }

  /** Callers answered under one key asked for the same task and got the same result. */
  lemma AnsweredCallsAgree(c: Config, es: seq<Event>, i: CallId, j: CallId)
    requires var s := Run(GateOf(c), INITIAL, es);
             && i in s.calls && j in s.calls
             && s.calls[i].job.idempotencyKey == s.calls[j].job.idempotencyKey
             && s.calls[i].phase.Replied? && s.calls[i].phase.reply.Ok?
             && s.calls[j].phase.Replied? && s.calls[j].phase.reply.Ok?
             && FingerprintsSound(c.primitives, s.calls[i].job, s.calls[j].job)
    ensures var s := Run(GateOf(c), INITIAL, es);
            s.calls[i].phase.reply == s.calls[j].phase.reply && SameTask(s.calls[i].job, s.calls[j].job)
  {
    var s := Run(GateOf(c), INITIAL, es);
    InvariantHolds(GateOf(c), es);
    AuthorisedIsComplete(c, s.calls[i].job);
    AuthorisedIsComplete(c, s.calls[j].job);
    FingerprintNamesTask(c.primitives, s.calls[i].job, s.calls[j].job);
  }

  // ---- nonces ------------------------------------------------------------------------------

  ghost predicate AdmittedAt(log: seq<Note>, i: int, nonce: string) {
    0 <= i < |log| && log[i].NonceAdmitted? && log[i].nonce == nonce
  }

  /** `i` is the nonce's last admission before position `n`. */
  ghost predicate LastBefore(log: seq<Note>, i: int, n: int, nonce: string) {
    AdmittedAt(log, i, nonce) && i < n <= |log| && forall j :: i < j < n ==> !AdmittedAt(log, j, nonce)
  }

  /** The table remembers each nonce's last admission until its expiry passes, and nothing else. */
  ghost predicate NoncesMatch(s: State) {
    && (forall n :: n in s.tables.nonces ==>
          exists i :: LastBefore(s.log, i, |s.log|, n)
                      && s.tables.nonces[n] == NonceRecord(s.log[i].key, s.log[i].expiresAt))
    && (forall i, n :: LastBefore(s.log, i, |s.log|, n) ==>
          (n in s.tables.nonces && s.tables.nonces[n] == NonceRecord(s.log[i].key, s.log[i].expiresAt))
              || s.log[i].expiresAt <= s.now)
    && (forall i, j, n :: LastBefore(s.log, i, j, n) && AdmittedAt(s.log, j, n) && s.log[i].key != s.log[j].key ==>
          s.log[i].expiresAt <= s.log[j].at)
  }

  /** A nonce admitted under one key is admitted under another only after the expiry stored by its
    * most recent admission has passed.
    */
  lemma {:induction false} NoncesStayBound(g: Gate, es: seq<Event>)
    ensures NoncesMatch(Run(g, INITIAL, es))
  {
    if es != [] {
      NoncesStayBound(g, es[..|es| - 1]);
      StepKeepsNonces(g, Run(g, INITIAL, es[..|es| - 1]), es[|es| - 1]);
    }
  }

  lemma StepKeepsNonces(g: Gate, s: State, e: Event)
    requires NoncesMatch(s)
    ensures NoncesMatch(Step(g, s, e))
  {
    if e.Advance? && e.id in s.calls && e.move.Enter? && s.calls[e.id].phase.Checked? {
      EnterKeepsNonces(g, s, e.id);
    } else {
      OthersAdmitNothing(g, s, e);
      SameNonces(s, Step(g, s, e));
    }
  }

  lemma OthersAdmitNothing(g: Gate, s: State, e: Event)
    requires !(e.Advance? && e.id in s.calls && e.move.Enter? && s.calls[e.id].phase.Checked?)
    ensures var s' := Step(g, s, e);
            && s'.tables.nonces == s.tables.nonces && s.now <= s'.now && s.log <= s'.log
            && forall i :: |s.log| <= i < |s'.log| ==> !s'.log[i].NonceAdmitted?
  {
  }

  lemma SameNonces(s: State, s': State)
    requires NoncesMatch(s)
    requires s'.tables.nonces == s.tables.nonces && s.now <= s'.now && s.log <= s'.log
    requires forall i :: |s.log| <= i < |s'.log| ==> !s'.log[i].NonceAdmitted?
    ensures NoncesMatch(s')
  {
    SameAdmissions(s.log, s'.log);
    forall n | n in s'.tables.nonces
      ensures exists i :: LastBefore(s'.log, i, |s'.log|, n)
                && s'.tables.nonces[n] == NonceRecord(s'.log[i].key, s'.log[i].expiresAt)
    {
      var i :| LastBefore(s.log, i, |s.log|, n) && s.tables.nonces[n] == NonceRecord(s.log[i].key, s.log[i].expiresAt);
      assert LastBefore(s'.log, i, |s'.log|, n);
    }
  }

  /** A longer log without new admissions has the same last admissions. */
  lemma SameAdmissions(log: seq<Note>, log': seq<Note>)
    requires log <= log' && forall i :: |log| <= i < |log'| ==> !log'[i].NonceAdmitted?
    ensures forall i, n :: AdmittedAt(log', i, n) <==> AdmittedAt(log, i, n)
    ensures forall i, n :: LastBefore(log', i, |log'|, n) <==> LastBefore(log, i, |log|, n)
    ensures forall i, j, n :: AdmittedAt(log', j, n) ==> (LastBefore(log', i, j, n) <==> LastBefore(log, i, j, n))
  {
  }

  lemma EnterKeepsNonces(g: Gate, s: State, id: CallId)
    requires NoncesMatch(s) && id in s.calls && s.calls[id].phase.Checked?
    ensures NoncesMatch(Step(g, s, Advance(id, Enter)))
  {
    var s' := Step(g, s, Advance(id, Enter));
    var job := s.calls[id].job;
    if s'.log == s.log {
      assert s'.tables.nonces == Pruned(s.tables.nonces, s.now);
    } else {
      assert s'.log == s.log + [NonceAdmitted(job.nonce, job.idempotencyKey, job.expiresAt, s.now)];
      assert s'.tables.nonces
          == Pruned(s.tables.nonces, s.now)[job.nonce := NonceRecord(job.idempotencyKey, job.expiresAt)];
      assert job.nonce in Pruned(s.tables.nonces, s.now) ==>
          s.tables.nonces[job.nonce].idempotencyKey == job.idempotencyKey;
      NewAdmission(s, s', job.nonce, job.idempotencyKey, job.expiresAt);
    }
  }

  lemma NewAdmission(s: State, s': State, nonce: string, key: string, expiresAt: int)
    requires NoncesMatch(s) && s'.now == s.now
    requires s'.log == s.log + [NonceAdmitted(nonce, key, expiresAt, s.now)]
    requires s'.tables.nonces == Pruned(s.tables.nonces, s.now)[nonce := NonceRecord(key, expiresAt)]
    requires nonce in Pruned(s.tables.nonces, s.now) ==> s.tables.nonces[nonce].idempotencyKey == key
    ensures NoncesMatch(s')
  {
    var last := |s.log|;
    forall i, n ensures AdmittedAt(s'.log, i, n) <==> AdmittedAt(s.log, i, n) || (i == last && n == nonce) {}
    assert LastBefore(s'.log, last, |s'.log|, nonce);
    forall i, n | n != nonce ensures LastBefore(s'.log, i, |s'.log|, n) <==> LastBefore(s.log, i, |s.log|, n) {}
    forall i, j, n | LastBefore(s'.log, i, j, n) && AdmittedAt(s'.log, j, n) && s'.log[i].key != s'.log[j].key
      ensures s'.log[i].expiresAt <= s'.log[j].at
    {
      assert LastBefore(s.log, i, j, n);
      if j < last { assert AdmittedAt(s.log, j, n); }
    }
    forall n | n in s'.tables.nonces
      ensures exists i :: LastBefore(s'.log, i, |s'.log|, n)
                && s'.tables.nonces[n] == NonceRecord(s'.log[i].key, s'.log[i].expiresAt)
    {
      if n != nonce {
        var i :| LastBefore(s.log, i, |s.log|, n)
            && s.tables.nonces[n] == NonceRecord(s.log[i].key, s.log[i].expiresAt);
        assert LastBefore(s'.log, i, |s'.log|, n);
      }
    }
    forall i, n | LastBefore(s'.log, i, |s'.log|, n)
      ensures (n in s'.tables.nonces && s'.tables.nonces[n] == NonceRecord(s'.log[i].key, s'.log[i].expiresAt))
              || s'.log[i].expiresAt <= s'.now
    {
      if n == nonce { assert i == last; } else { assert LastBefore(s.log, i, |s.log|, n); }
    }
  }

  /** Past the checks, a job is turned away for its nonce exactly when the nonce's most recent
    * admission was under another key and has not run out.
    */
  lemma NonceRefusalExact(g: Gate, es: seq<Event>, id: CallId)
    requires var s := Run(g, INITIAL, es); id in s.calls && s.calls[id].phase.Checked?
    ensures var s := Run(g, INITIAL, es);
            var job := s.calls[id].job;
            Step(g, s, Advance(id, Enter)).calls[id].phase == Replied(Err(TaskAuthentication))
            <==> exists i :: LastBefore(s.log, i, |s.log|, job.nonce) && s.log[i].key != job.idempotencyKey
                   && s.now < s.log[i].expiresAt
  {
    NoncesStayBound(g, es);
    var s := Run(g, INITIAL, es);
    var job := s.calls[id].job;
    if i :|
      LastBefore(s.log, i, |s.log|, job.nonce) && s.log[i].key != job.idempotencyKey && s.now < s.log[i].expiresAt
    {
      assert job.nonce in Pruned(s.tables.nonces, s.now);
    }
  }
}
