/** All interleavings of concurrent `Execute` calls: each call is a program counter, each event one
  * atomic step of one call, and the log keeps what an outside observer sees.
  */
module ActionRuns {
  import opened Outcomes
  import opened CanonicalTask
  import opened ActionServiceCore

  type CallId = nat
  type Reply = Result<ActionResult, ActionError>

  datatype Phase =
    | Arrived                        // before the checks
    | Checked                        // checks passed, mutex not yet taken
    | Waiting                        // duplicate, blocked on the record's channel
    | Leading                        // created the record, executor not yet called
    | Acted(result: ActionResult)    // executor returned, nothing published
    | Published(result: ActionResult)
    | Replied(reply: Reply)

  datatype Call = Call(job: Job, phase: Phase) {
    predicate Owns(key: string) {
      job.idempotencyKey == key && (phase.Leading? || phase.Acted?)
    }
  }

  datatype Note =
    | NonceAdmitted(nonce: string, key: string, expiresAt: int, at: int)
    | ChecksPassed(job: Job, at: int)
    | ExecutorRan(job: Job, outcome: Result<ActionResult, string>, at: int)
    | ResultPublished(key: string, result: ActionResult)
    | CallAnswered(id: CallId, key: string, result: ActionResult)

  datatype State = State(tables: Tables, now: int, calls: map<CallId, Call>, log: seq<Note>)

  /** The steps of one call, in the order its code takes them; which come next depends on its phase. */
  datatype Move = Check | Enter | Act(outcome: Result<ActionResult, string>) | Publish | Return | Wake | Cancel

  datatype Event =
    | Arrive(id: CallId, job: Job)
    | Advance(id: CallId, move: Move)
    | Tick(elapsed: nat)

  const INITIAL := State(Tables(map[], map[]), 0, map[], [])

  /** What one move of a call changes. */
  datatype Effect = Effect(tables: Tables, phase: Phase, notes: seq<Note>)

  function EnterEffect(g: Gate, t: Tables, now: int, job: Job): Effect {
    var (tables, admission) := Admit(g, t, job, now);
    Effect(tables,
           (match admission
            case Refused(e) => Replied(Err(e))
            case Join => Waiting
            case Lead => Leading),
           if admission == Refused(TaskAuthentication) then []
           else [NonceAdmitted(job.nonce, job.idempotencyKey, job.expiresAt, now)])
  }

  /** None when the move is not the call's next one. */
  function EffectOf(g: Gate, t: Tables, now: int, id: CallId, call: Call, move: Move): Option<Effect> {
    var key := call.job.idempotencyKey;
    match move
    case Check =>
      if !call.phase.Arrived? then None
      else
        var error := g.check(call.job, now);
        if error.Some? then Some(Effect(t, Replied(Err(error.value)), []))
        else Some(Effect(t, Checked, [ChecksPassed(call.job, now)]))
    case Enter =>
      if !call.phase.Checked? then None else Some(EnterEffect(g, t, now, call.job))
    case Act(outcome) =>
      if !call.phase.Leading? then None
      else
        var result := if outcome.Ok? then outcome.value else ActionResult(call.job.id, false, outcome.error, now);
        Some(Effect(t, Acted(result), [ExecutorRan(call.job, outcome, now)]))
    case Publish =>
      if !call.phase.Acted? || key !in t.records then None
      else
        Some(Effect(Settle(t, key, call.phase.result, now), Published(call.phase.result),
                    [ResultPublished(key, call.phase.result)]))
    case Return =>
      if !call.phase.Published? then None
      else Some(Effect(t, Replied(Ok(call.phase.result)), [CallAnswered(id, key, call.phase.result)]))
    case Wake =>
      if !call.phase.Waiting? || key !in t.records || t.records[key].Running? then None
      else
        var result := t.records[key].result;
        Some(Effect(t, Replied(Ok(result)), [CallAnswered(id, key, result)]))
    case Cancel =>
      if !call.phase.Waiting? then None else Some(Effect(t, Replied(Err(ContextDone)), []))
  }

  function Apply(s: State, id: CallId, effect: Effect): State
    requires id in s.calls
  {
    State(effect.tables, s.now, s.calls[id := s.calls[id].(phase := effect.phase)], s.log + effect.notes)
  }

  /** One atomic step; an event that is not enabled changes nothing. */
  function Step(g: Gate, s: State, e: Event): State {
    match e
    case Arrive(id, job) => if id in s.calls then s else s.(calls := s.calls[id := Call(job, Arrived)])
    case Tick(elapsed) => s.(now := s.now + elapsed)
    case Advance(id, move) =>
      if id !in s.calls then s
      else
        var effect := EffectOf(g, s.tables, s.now, id, s.calls[id], move);
        if effect.None? then s else Apply(s, id, effect.value)
  }

  function Run(g: Gate, s: State, es: seq<Event>): State {
    if es == [] then s else Step(g, Run(g, s, es[..|es| - 1]), es[|es| - 1])
  }

  // ---- the inductive invariant -------------------------------------------------------------

  /** A record is unfinished exactly while one call owns it. */
  ghost predicate OwnersMatch(s: State) {
    && (forall i, k :: i in s.calls && s.calls[i].Owns(k) ==> k in s.tables.records && s.tables.records[k].Running?)
    && (forall k :: k in s.tables.records && s.tables.records[k].Running? ==>
          exists i :: i in s.calls && s.calls[i].Owns(k))
    && (forall i, j, k :: i in s.calls && j in s.calls && s.calls[i].Owns(k) && s.calls[j].Owns(k) ==> i == j)
  }

  /** Past the mutex, a call's key is bound to the call's own fingerprint; a result in hand is the published one. */
  ghost predicate CallsMatch(g: Gate, s: State) {
    forall i :: i in s.calls ==>
      var call := s.calls[i];
      var key := call.job.idempotencyKey;
      && (!call.phase.Arrived? && !(call.phase.Replied? && call.phase.reply.Err?) ==> g.authorised(call.job))
      && (call.phase.Waiting? || call.phase.Leading? || call.phase.Acted? || call.phase.Published?
          || (call.phase.Replied? && call.phase.reply.Ok?) ==>
            key in s.tables.records && s.tables.records[key].fingerprint == g.fingerprint(call.job))
      && (call.phase.Published? ==>
          s.tables.records[key].Finished? && s.tables.records[key].result == call.phase.result)
      && (call.phase.Replied? && call.phase.reply.Ok? ==>
            s.tables.records[key].Finished? && s.tables.records[key].result == call.phase.reply.value)
  }

  ghost predicate RanAt(log: seq<Note>, i: int, key: string) {
    0 <= i < |log| && log[i].ExecutorRan? && log[i].job.idempotencyKey == key
  }

  ghost predicate HasRun(s: State, key: string) {
    exists i :: RanAt(s.log, i, key)
  }

  ghost predicate HasActed(s: State, key: string) {
    && key in s.tables.records
    && (s.tables.records[key].Finished? || exists i :: i in s.calls && s.calls[i].Owns(key) && s.calls[i].phase.Acted?)
  }

  /** The executor has run for a key exactly when the key's record is finished or its owner has
    * acted; it ran once, and only on a job that had passed the checks.
    */
  ghost predicate ExecutionsMatch(g: Gate, s: State) {
    && (forall k :: HasRun(s, k) <==> HasActed(s, k))
    && (forall i :: 0 <= i < |s.log| && s.log[i].ExecutorRan? ==> g.authorised(s.log[i].job))
    && (forall i, j, k :: i < j && RanAt(s.log, i, k) ==> !RanAt(s.log, j, k))
  }

  ghost predicate PublishedAt(log: seq<Note>, i: int, key: string, result: ActionResult) {
    0 <= i < |log| && log[i] == ResultPublished(key, result)
  }

  /** Every publication is in its record, and there is one per key. */
  ghost predicate PublicationsRecorded(s: State) {
    && (forall i :: 0 <= i < |s.log| && s.log[i].ResultPublished? ==>
          s.log[i].key in s.tables.records && s.tables.records[s.log[i].key].Finished?
          && s.tables.records[s.log[i].key].result == s.log[i].result)
    && (forall i, j :: 0 <= i < j < |s.log| && s.log[i].ResultPublished? && s.log[j].ResultPublished? ==>
          s.log[i].key != s.log[j].key)
  }

  ghost predicate RecordsPublished(s: State) {
    forall k :: k in s.tables.records && s.tables.records[k].Finished? ==>
      exists i :: PublishedAt(s.log, i, k, s.tables.records[k].result)
  }

  ghost predicate AnswersPublished(s: State) {
    forall j :: 0 <= j < |s.log| && s.log[j].CallAnswered? ==>
      exists i :: i < j && PublishedAt(s.log, i, s.log[j].key, s.log[j].result)
  }

  /** Finished records are the published ones, one publication each, and no answer comes before it. */
  ghost predicate PublicationsMatch(s: State) {
    PublicationsRecorded(s) && RecordsPublished(s) && AnswersPublished(s)
  }

  ghost predicate Invariant(g: Gate, s: State) {
    OwnersMatch(s) && CallsMatch(g, s) && ExecutionsMatch(g, s) && PublicationsMatch(s)
  }

  lemma AdvanceKeepsOwners(g: Gate, s: State, id: CallId, move: Move)
    requires Sound(g) && id in s.calls && OwnersMatch(s) && CallsMatch(g, s)
    ensures OwnersMatch(Step(g, s, Advance(id, move)))
  {
    RunningStayOwned(g, s, id, move);
    OwnersStayApart(g, s, id, move);
  }

  lemma RunningStayOwned(g: Gate, s: State, id: CallId, move: Move)
    requires Sound(g) && id in s.calls && OwnersMatch(s) && CallsMatch(g, s)
    ensures var s' := Step(g, s, Advance(id, move));
            forall k :: k in s'.tables.records && s'.tables.records[k].Running? ==>
              exists i :: i in s'.calls && s'.calls[i].Owns(k)
  {
    var s' := Step(g, s, Advance(id, move));
    forall k | k in s'.tables.records && s'.tables.records[k].Running?
      ensures exists i :: i in s'.calls && s'.calls[i].Owns(k)
    {
      if k in s.tables.records {
        var i :| i in s.calls && s.calls[i].Owns(k);
        assert s'.calls[i].Owns(k);
      } else {
        assert s'.calls[id].Owns(k);
      }
    }
  }

  lemma OwnersStayApart(g: Gate, s: State, id: CallId, move: Move)
    requires Sound(g) && id in s.calls && OwnersMatch(s) && CallsMatch(g, s)
    ensures var s' := Step(g, s, Advance(id, move));
            && (forall i, k :: i in s'.calls && s'.calls[i].Owns(k) ==>
                  k in s'.tables.records && s'.tables.records[k].Running?)
            && (forall i, j, k :: i in s'.calls && j in s'.calls && s'.calls[i].Owns(k) && s'.calls[j].Owns(k) ==>
                  i == j)
  {
  }

  lemma AdvanceKeepsCalls(g: Gate, s: State, id: CallId, move: Move)
    requires Sound(g) && id in s.calls && OwnersMatch(s) && CallsMatch(g, s)
    ensures CallsMatch(g, Step(g, s, Advance(id, move)))
  {
  }

  lemma LeaderHasNotRun(g: Gate, s: State, id: CallId)
    requires id in s.calls && s.calls[id].phase.Leading? && OwnersMatch(s) && ExecutionsMatch(g, s)
    ensures !HasRun(s, s.calls[id].job.idempotencyKey)
  {
    assert s.calls[id].Owns(s.calls[id].job.idempotencyKey);
  }

  lemma AdvanceKeepsActed(g: Gate, s: State, id: CallId, move: Move, k: string)
    requires Sound(g) && id in s.calls && OwnersMatch(s) && CallsMatch(g, s)
    requires !(move.Act? && s.calls[id].phase.Leading? && s.calls[id].job.idempotencyKey == k)
    ensures HasActed(Step(g, s, Advance(id, move)), k) <==> HasActed(s, k)
  {
    var s' := Step(g, s, Advance(id, move));
    var owner := s.calls[id].job.idempotencyKey;
    if s.calls[id].phase.Acted? || s.calls[id].phase.Leading? {
      assert s.calls[id].Owns(owner);
    }
    if HasActed(s, k) && s.tables.records[k].Running? {
      var i :| i in s.calls && s.calls[i].Owns(k) && s.calls[i].phase.Acted?;
      if i != id { assert s'.calls[i] == s.calls[i]; }
    }
    if HasActed(s', k) && s'.tables.records[k].Running? {
      var i :| i in s'.calls && s'.calls[i].Owns(k) && s'.calls[i].phase.Acted?;
      if i != id { assert s'.calls[i] == s.calls[i]; }
    }
  }

  lemma AdvanceKeepsRuns(g: Gate, s: State, id: CallId, move: Move, k: string)
    requires Sound(g) && id in s.calls && OwnersMatch(s) && CallsMatch(g, s) && ExecutionsMatch(g, s)
    ensures var s' := Step(g, s, Advance(id, move)); HasRun(s', k) <==> HasActed(s', k)
  {
    var s' := Step(g, s, Advance(id, move));
    if move.Act? && s.calls[id].phase.Leading? && s.calls[id].job.idempotencyKey == k {
      assert s.calls[id].Owns(k) && s'.calls[id].Owns(k);
      assert RanAt(s'.log, |s.log|, k);
    } else {
      AdvanceKeepsActed(g, s, id, move, k);
      if i :| RanAt(s.log, i, k) { assert RanAt(s'.log, i, k); }
      if i :| RanAt(s'.log, i, k) { assert RanAt(s.log, i, k); }
    }
  }

  lemma AdvanceKeepsExecutions(g: Gate, s: State, id: CallId, move: Move)
    requires Sound(g) && id in s.calls && OwnersMatch(s) && CallsMatch(g, s) && ExecutionsMatch(g, s)
    ensures ExecutionsMatch(g, Step(g, s, Advance(id, move)))
  {
    var s' := Step(g, s, Advance(id, move));
    forall k ensures HasRun(s', k) <==> HasActed(s', k) { AdvanceKeepsRuns(g, s, id, move, k); }
    forall i, j, k | i < j && RanAt(s'.log, j, k) ensures !RanAt(s'.log, i, k) {
      if j == |s.log| {
        LeaderHasNotRun(g, s, id);
      } else {
        assert RanAt(s.log, j, k);
      }
      assert !RanAt(s.log, i, k);
    }
  }

  lemma AdvanceKeepsRecorded(g: Gate, s: State, id: CallId, move: Move)
    requires Sound(g) && id in s.calls && OwnersMatch(s) && PublicationsRecorded(s)
    ensures PublicationsRecorded(Step(g, s, Advance(id, move)))
  {
    if s.calls[id].phase.Acted? { assert s.calls[id].Owns(s.calls[id].job.idempotencyKey); }
  }

  lemma AdvanceKeepsPublished(g: Gate, s: State, id: CallId, move: Move)
    requires Sound(g) && id in s.calls && OwnersMatch(s) && RecordsPublished(s)
    ensures RecordsPublished(Step(g, s, Advance(id, move)))
  {
    var s' := Step(g, s, Advance(id, move));
    forall k | k in s'.tables.records && s'.tables.records[k].Finished?
      ensures exists i :: PublishedAt(s'.log, i, k, s'.tables.records[k].result)
    {
      if s.calls[id].phase.Acted? { assert s.calls[id].Owns(s.calls[id].job.idempotencyKey); }
      if k in s.tables.records && s.tables.records[k].Finished? {
        var i :| PublishedAt(s.log, i, k, s.tables.records[k].result);
        assert PublishedAt(s'.log, i, k, s'.tables.records[k].result);
      } else {
        assert PublishedAt(s'.log, |s.log|, k, s'.tables.records[k].result);
      }
    }
  }

  lemma AdvanceKeepsAnswers(g: Gate, s: State, id: CallId, move: Move)
    requires Sound(g) && id in s.calls && CallsMatch(g, s) && RecordsPublished(s) && AnswersPublished(s)
    ensures AnswersPublished(Step(g, s, Advance(id, move)))
  {
    var s' := Step(g, s, Advance(id, move));
    forall j | 0 <= j < |s'.log| && s'.log[j].CallAnswered?
      ensures exists i :: i < j && PublishedAt(s'.log, i, s'.log[j].key, s'.log[j].result)
    {
      if j < |s.log| {
        var i :| i < j && PublishedAt(s.log, i, s.log[j].key, s.log[j].result);
        assert PublishedAt(s'.log, i, s'.log[j].key, s'.log[j].result);
      } else {
        var i :| PublishedAt(s.log, i, s'.log[j].key, s'.log[j].result);
        assert PublishedAt(s'.log, i, s'.log[j].key, s'.log[j].result);
      }
    }
  }

  /** Arrivals and passing time touch no table, no log and no call under way. */
  ghost predicate OnlyArrives(s: State, s': State) {
    && s'.log == s.log && s'.tables == s.tables
    && (forall i :: i in s.calls ==> i in s'.calls && s'.calls[i] == s.calls[i])
    && (forall i :: i in s'.calls && i !in s.calls ==> s'.calls[i].phase.Arrived?)
  }

  lemma ArrivalKeepsOwners(s: State, s': State)
    requires OwnersMatch(s) && OnlyArrives(s, s')
    ensures OwnersMatch(s')
  {
    forall k | k in s'.tables.records && s'.tables.records[k].Running?
      ensures exists i :: i in s'.calls && s'.calls[i].Owns(k)
    {
      var i :| i in s.calls && s.calls[i].Owns(k);
      assert s'.calls[i].Owns(k);
    }
  }

  lemma ArrivalKeepsExecutions(g: Gate, s: State, s': State)
    requires ExecutionsMatch(g, s) && OnlyArrives(s, s')
    ensures ExecutionsMatch(g, s')
  {
    forall k ensures HasRun(s', k) <==> HasActed(s', k) {
      assert HasRun(s', k) <==> HasRun(s, k);
      if HasActed(s, k) && s.tables.records[k].Running? {
        var i :| i in s.calls && s.calls[i].Owns(k) && s.calls[i].phase.Acted?;
        assert s'.calls[i].Owns(k);
      }
    }
  }

  lemma OthersOnlyArrive(g: Gate, s: State, e: Event)
    requires !(e.Advance? && e.id in s.calls)
    ensures OnlyArrives(s, Step(g, s, e))
  {
  }

  lemma StepKeepsInvariant(g: Gate, s: State, e: Event)
    requires Sound(g) && Invariant(g, s)
    ensures Invariant(g, Step(g, s, e))
  {
    if e.Advance? && e.id in s.calls {
      AdvanceKeepsOwners(g, s, e.id, e.move);
      AdvanceKeepsCalls(g, s, e.id, e.move);
      AdvanceKeepsExecutions(g, s, e.id, e.move);
      AdvanceKeepsRecorded(g, s, e.id, e.move);
      AdvanceKeepsPublished(g, s, e.id, e.move);
      AdvanceKeepsAnswers(g, s, e.id, e.move);
    } else {
      OthersOnlyArrive(g, s, e);
      ArrivalKeepsOwners(s, Step(g, s, e));
      ArrivalKeepsExecutions(g, s, Step(g, s, e));
    }
  }

  /** Whatever the calls and however their steps interleave, the invariant holds. */
  lemma {:induction false} InvariantHolds(g: Gate, es: seq<Event>)
    requires Sound(g)
    ensures Invariant(g, Run(g, INITIAL, es))
  {
    if es != [] {
      InvariantHolds(g, es[..|es| - 1]);
      StepKeepsInvariant(g, Run(g, INITIAL, es[..|es| - 1]), es[|es| - 1]);
    }
  }
}
