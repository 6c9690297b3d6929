/** Every interleaving of activations, clears, queries, time and the steps of CPU workers. */
module FaultRuns {
  import opened Outcomes
  import opened FaultStateCore

  /** A worker exists from the critical section that asked for it; its thread starts later. */
  datatype Phase = Pending | Looping | Exiting | Gone

  datatype System = System(store: Store, now: real, workers: seq<Phase>)

  datatype Event =
    | Activate(scenario: string, duration: int)
    | Clear(scenario: string)
    | Query(scenario: string)
    | Tick(elapsed: real)
    | StartThread(id: nat)
    | Check(id: nat)
    | Finish(id: nat)

  const START := System(Store(map[], false), 0.0, [])

  predicate At(s: System, id: nat, phase: Phase) {
    id < |s.workers| && s.workers[id] == phase
  }

  /** An event that is not enabled changes nothing. */
  function Step(s: System, e: Event): System {
    match e
    case Activate(scenario, duration) =>
      if !Valid(scenario, duration) then s
      else
        s.(store := Activated(s.store, scenario, duration, s.now),
           workers := if StartsWorker(s.store, scenario) then s.workers + [Pending] else s.workers)
    case Clear(scenario) => s.(store := Cleared(s.store, scenario))
    case Query(scenario) => s.(store := Checked(s.store, scenario, s.now))
    case Tick(elapsed) => if elapsed >= 0.0 then s.(now := s.now + elapsed) else s
    case StartThread(id) => if At(s, id, Pending) then s.(workers := s.workers[id := Looping]) else s
    case Check(id) =>
      if !At(s, id, Looping) then s
      else
        s.(store := Checked(s.store, CPU, s.now),
           workers := if IsActive(s.store, CPU, s.now) then s.workers else s.workers[id := Exiting])
    case Finish(id) =>
      if At(s, id, Exiting) then s.(store := s.store.(running := false), workers := s.workers[id := Gone]) else s
  }

  function Run(es: seq<Event>): System {
    if es == [] then START else Step(Run(es[..|es| - 1]), es[|es| - 1])
  }

  // ---- one worker --------------------------------------------------------------------------

  function Live(workers: seq<Phase>): nat {
    if workers == [] then 0
    else Live(workers[..|workers| - 1]) + if workers[|workers| - 1] == Gone then 0 else 1
  }

  function Weight(p: Phase): nat {
    if p == Gone then 0 else 1
  }

  lemma {:induction false} LiveAfterMove(workers: seq<Phase>, id: nat, p: Phase)
    requires id < |workers|
    ensures Live(workers[id := p]) == Live(workers) - Weight(workers[id]) + Weight(p)
  {
    var n, moved := |workers| - 1, workers[id := p];
    if id == n {
      assert moved[..n] == workers[..n];
    } else {
      LiveAfterMove(workers[..n], id, p);
      assert moved[..n] == workers[..n][id := p];
    }
  }

  lemma {:induction false} LiveWorkerCounts(workers: seq<Phase>, id: nat)
    requires id < |workers| && workers[id] != Gone
    ensures Live(workers) >= 1
  {
    if id < |workers| - 1 { LiveWorkerCounts(workers[..|workers| - 1], id); }
  }

  lemma {:induction false} TwoWorkersCount(workers: seq<Phase>, i: nat, j: nat)
    requires i < j < |workers| && workers[i] != Gone && workers[j] != Gone
    ensures Live(workers) >= 2
  {
    if j < |workers| - 1 {
      TwoWorkersCount(workers[..|workers| - 1], i, j);
    } else {
      LiveWorkerCounts(workers[..|workers| - 1], i);
    }
  }

  ghost predicate FlagCounts(s: System) {
    Live(s.workers) == if s.store.running then 1 else 0
  }

  lemma FlagStep(s: System, e: Event)
    requires FlagCounts(s)
    ensures FlagCounts(Step(s, e))
  {
    match e
    case Activate(scenario, duration) =>
      assert (s.workers + [Pending])[..|s.workers|] == s.workers;
    case StartThread(id) =>
      if At(s, id, Pending) { LiveAfterMove(s.workers, id, Looping); }
    case Check(id) =>
      if At(s, id, Looping) { LiveAfterMove(s.workers, id, Exiting); }
    case Finish(id) =>
      if At(s, id, Exiting) {
        LiveAfterMove(s.workers, id, Gone);
        LiveWorkerCounts(s.workers, id);
      }
    case _ =>
  }

  lemma {:induction false} FlagAlwaysCounts(es: seq<Event>)
    ensures FlagCounts(Run(es))
  {
    if es != [] {
      FlagAlwaysCounts(es[..|es| - 1]);
      FlagStep(Run(es[..|es| - 1]), es[|es| - 1]);
    }
  }

  /** At most one worker is pending, looping or exiting, and the flag is set exactly while one is. */
  lemma OneWorker(es: seq<Event>)
    ensures var s := Run(es);
            && (s.store.running <==> exists i :: 0 <= i < |s.workers| && s.workers[i] != Gone)
            && forall i, j ::
                 0 <= i < |s.workers| && 0 <= j < |s.workers| && s.workers[i] != Gone && s.workers[j] != Gone ==>
                 i == j
  {
    var s := Run(es);
    FlagAlwaysCounts(es);
    if s.store.running {
      var i := SomeLive(s.workers);
    }
    forall i | 0 <= i < |s.workers| && s.workers[i] != Gone ensures s.store.running {
      LiveWorkerCounts(s.workers, i);
    }
    forall i, j | 0 <= i < j < |s.workers| && s.workers[i] != Gone ensures s.workers[j] == Gone {
      if s.workers[j] != Gone { TwoWorkersCount(s.workers, i, j); }
    }
  }

  lemma {:induction false} SomeLive(workers: seq<Phase>) returns (i: nat)
    requires Live(workers) >= 1
    ensures i < |workers| && workers[i] != Gone
  {
    if workers[|workers| - 1] != Gone {
      i := |workers| - 1;
    } else {
      i := SomeLive(workers[..|workers| - 1]);
    }
  }

  // ---- lazy deletion -----------------------------------------------------------------------

  /** The deadline of the last activation that no clear has followed. */
  function Deadline(es: seq<Event>, scenario: string): Option<real> {
    if es == [] then None
    else
      var front, e := es[..|es| - 1], es[|es| - 1];
      if e.Activate? && e.scenario == scenario && Valid(scenario, e.duration) then
        Some(Run(front).now + e.duration as real)
      else if e == Clear(scenario) then None
      else Deadline(front, scenario)
  }

  ghost predicate Agrees(s: System, scenario: string, d: Option<real>) {
    if scenario in s.store.deadlines then d == Some(s.store.deadlines[scenario]) else d.None? || d.value <= s.now
  }

  lemma {:induction false} DeadlinesAgree(es: seq<Event>, scenario: string)
    ensures Agrees(Run(es), scenario, Deadline(es, scenario))
  {
    if es != [] { DeadlinesAgree(es[..|es| - 1], scenario); }
  }

  /** Dropping expired deadlines is not observable: a scenario is active exactly while the deadline of
    * its last uncleared activation lies ahead.
    */
  lemma ActiveMeansDeadlineAhead(es: seq<Event>, scenario: string)
    ensures IsActive(Run(es).store, scenario, Run(es).now)
            <==> Deadline(es, scenario).Some? && Deadline(es, scenario).value > Run(es).now
  {
    DeadlinesAgree(es, scenario);
  }

  /** No fault outlasts two minutes without a new activation. */
  lemma {:induction false} FaultsExpire(es: seq<Event>, scenario: string)
    ensures scenario in Run(es).store.deadlines ==> Run(es).store.deadlines[scenario] <= Run(es).now + 120.0
  {
    if es != [] { FaultsExpire(es[..|es| - 1], scenario); }
  }

  // ---- an active CPU fault without a worker ------------------------------------------------

  ghost predicate SomeExiting(s: System) {
    exists i :: 0 <= i < |s.workers| && s.workers[i] == Exiting
  }

  /** Active although no worker is left, or about to be: the only worker has made its last check. */
  ghost predicate Stranded(s: System) {
    IsActive(s.store, CPU, s.now) && (Live(s.workers) == 0 || SomeExiting(s))
  }

  /** A CPU activation while the worker is between its last check and clearing the flag. */
  ghost predicate Late(s: System, e: Event) {
    e.Activate? && e.scenario == CPU && Valid(CPU, e.duration) && SomeExiting(s)
  }

  lemma LateActivationStrands(s: System, e: Event)
    requires Late(s, e) && FlagCounts(s)
    ensures Stranded(Step(s, e))
  {
    var i :| 0 <= i < |s.workers| && s.workers[i] == Exiting;
    LiveWorkerCounts(s.workers, i);
    assert Step(s, e).workers[i] == Exiting;
  }

  lemma NoOtherStrands(s: System, e: Event)
    requires FlagCounts(s) && !Stranded(s) && !Late(s, e)
    ensures !Stranded(Step(s, e))
  {
    var after := Step(s, e);
    FlagStep(s, e);
    match e
    case Finish(id) =>
      if At(s, id, Exiting) { assert SomeExiting(s); }
    case Activate(scenario, duration) =>
      if SomeExiting(after) {
        var i :| 0 <= i < |after.workers| && after.workers[i] == Exiting;
        assert s.workers[i] == Exiting;
      }
    case StartThread(id) =>
      if At(s, id, Pending) { LiveAfterMove(s.workers, id, Looping); }
      if SomeExiting(after) {
        var i :| 0 <= i < |after.workers| && after.workers[i] == Exiting;
        assert s.workers[i] == Exiting;
      }
    case Check(id) =>
    case _ =>
  }

  /** A run is never stranded exactly when no CPU activation in it is late. */
  lemma NeverStrandedExactlyWhenNeverLate(es: seq<Event>)
    ensures (forall k :: 0 <= k <= |es| ==> !Stranded(Run(es[..k])))
            <==> forall k :: 0 <= k < |es| ==> !Late(Run(es[..k]), es[k])
  {
    forall k | 0 <= k < |es| ensures Run(es[..k + 1]) == Step(Run(es[..k]), es[k]) {
      assert es[..k + 1][..k] == es[..k];
    }
    if k :| 0 <= k < |es| && Late(Run(es[..k]), es[k]) {
      FlagAlwaysCounts(es[..k]);
      LateActivationStrands(Run(es[..k]), es[k]);
      assert Stranded(Run(es[..k + 1]));
    } else {
      forall n | 0 <= n <= |es| ensures !Stranded(Run(es[..n])) { NeverStranded(es, n); }
    }
  }

  lemma {:induction false} NeverStranded(es: seq<Event>, n: nat)
    requires n <= |es| && forall k :: 0 <= k < |es| ==> !Late(Run(es[..k]), es[k])
    ensures !Stranded(Run(es[..n]))
  {
    if n > 0 {
      NeverStranded(es, n - 1);
      assert es[..n][..n - 1] == es[..n - 1];
      FlagAlwaysCounts(es[..n - 1]);
      NoOtherStrands(Run(es[..n - 1]), es[n - 1]);
    }
  }

  /** The worker of a stranded run ends with the fault active, and only the next activation starts another. */
  lemma StrandedRunsIdle(s: System, id: nat)
    requires FlagCounts(s) && Stranded(s) && At(s, id, Exiting)
    ensures var after := Step(s, Finish(id));
            IsActive(after.store, CPU, after.now) && Live(after.workers) == 0 && !after.store.running
  {
    LiveAfterMove(s.workers, id, Gone);
    FlagStep(s, Finish(id));
  }

  /** It happens: one second passes, the worker sees it, and a new activation comes before it leaves. */
  lemma LateActivationHappens() returns (es: seq<Event>)
    ensures IsActive(Run(es).store, CPU, Run(es).now) && Live(Run(es).workers) == 0
  {
    es := [];
    assert Run(es) == START;
    es := Then(es, Activate(CPU, 1));
    assert Run(es) == System(Store(map[CPU := 1.0], true), 0.0, [Pending]);
    es := Then(es, StartThread(0));
    assert Run(es) == System(Store(map[CPU := 1.0], true), 0.0, [Looping]);
    es := Then(es, Tick(1.0));
    assert Run(es) == System(Store(map[CPU := 1.0], true), 1.0, [Looping]);
    es := Then(es, Check(0));
    assert Run(es) == System(Store(map[], true), 1.0, [Exiting]);
    es := Then(es, Activate(CPU, 1));
    assert Run(es) == System(Store(map[CPU := 2.0], true), 1.0, [Exiting]);
    es := Then(es, Finish(0));
    assert Run(es) == System(Store(map[CPU := 2.0], false), 1.0, [Gone]);
  }

  lemma Then(es: seq<Event>, e: Event) returns (r: seq<Event>)
    ensures Run(r) == Step(Run(es), e)
  {
    r := es + [e];
    assert r[..|es|] == es;
  }
}
