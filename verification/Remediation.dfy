/** Execution of an approved plan: steps in order up to the first failure, then compensation of what
  * had succeeded, newest first. Dispatcher and verifier may answer anything, depending on all that was
  * sent, or raise, which ends the call on the spot.
  */
module Remediation {
  import opened Numbers
  import opened Outcomes

  datatype Step = Step(
    actionType: string,
    target: string,
    arguments: map<string, string>,
    expectedResult: string,
    rollbackAction: Option<string>,
    rollbackArguments: map<string, string>)

  datatype StepResult = StepResult(succeeded: bool, message: string)

  /** `execute` answers a step given everything dispatched before it, or raises (None); `healthy` is the
    * installed verifier, if any, and answers or raises likewise.
    */
  datatype World = World(
    execute: (seq<Step>, Step) -> Option<StepResult>,
    healthy: Option<(seq<Step>, string) -> Option<bool>>)

  /** A run that an exception cut short stays running. */
  datatype RunStatus = RunRunning | RunSucceeded | RunFailed | RunRolledBack

  predicate Succeeds(w: World, sent: seq<Step>, step: Step) {
    w.execute(sent, step).Some? && w.execute(sent, step).value.succeeded
  }

  predicate Compensable(step: Step) {
    step.rollbackAction.Some? && step.rollbackAction.value != ""
  }

  function RollbackOf(step: Step): Step
    requires Compensable(step)
  {
    Step(step.rollbackAction.value, step.target, step.rollbackArguments, "回滚动作执行成功", None, map[])
  }

  // ---- the intended behaviour --------------------------------------------------------------

  /** How many leading steps succeed when sent in order after `sent`. */
  function Completed(w: World, sent: seq<Step>, steps: seq<Step>): (n: nat)
    ensures n <= |steps|
    decreases steps
  {
    if steps == [] || !Succeeds(w, sent, steps[0]) then 0
    else 1 + Completed(w, sent + [steps[0]], steps[1..])
  }

  /** How many leading steps are answered, whatever the answer. */
  function Answered(w: World, sent: seq<Step>, steps: seq<Step>): (n: nat)
    ensures n <= |steps|
    decreases steps
  {
    if steps == [] || w.execute(sent, steps[0]).None? then 0
    else 1 + Answered(w, sent + [steps[0]], steps[1..])
  }

  /** The compensations of the given completed steps, newest first. */
  function Undo(steps: seq<Step>): seq<Step> {
    if steps == [] then []
    else Undo(steps[1..]) + if Compensable(steps[0]) then [RollbackOf(steps[0])] else []
  }

  predicate AllSucceed(w: World, sent: seq<Step>, steps: seq<Step>)
    decreases steps
  {
    steps == [] || (Succeeds(w, sent, steps[0]) && AllSucceed(w, sent + [steps[0]], steps[1..]))
  }

  /** The verifier is asked about laboratory assets, when there is one. */
  predicate Asked(w: World, assetId: string) {
    w.healthy.Some? && "lab-" <= assetId
  }

  predicate Verified(w: World, sent: seq<Step>, assetId: string) {
    Asked(w, assetId) ==> w.healthy.value(sent, assetId) == Some(true)
  }

  predicate VerifierRaises(w: World, sent: seq<Step>, assetId: string) {
    Asked(w, assetId) && w.healthy.value(sent, assetId).None?
  }

  datatype Execution = Execution(sent: seq<Step>, status: RunStatus)

  /** What compensating adds to what was sent: all of it, or up to the one that raises. */
  function Compensate(w: World, sent: seq<Step>, undo: seq<Step>): Execution {
    var m := Answered(w, sent, undo);
    if m < |undo| then Execution(sent + undo[..m + 1], RunRunning)
    else Execution(sent + undo, if undo != [] && AllSucceed(w, sent, undo) then RunRolledBack else RunFailed)
  }

  function Execute(w: World, sent: seq<Step>, steps: seq<Step>, assetId: string): Execution {
    var n := Completed(w, sent, steps);
    if n < |steps| then
      if w.execute(sent + steps[..n], steps[n]).None? then Execution(sent + steps[..n + 1], RunRunning)
      else Compensate(w, sent + steps[..n + 1], Undo(steps[..n]))
    else if VerifierRaises(w, sent + steps, assetId) then Execution(sent + steps, RunRunning)
    else if Verified(w, sent + steps, assetId) then Execution(sent + steps, RunSucceeded)
    else Compensate(w, sent + steps, Undo(steps))
  }

  // ---- what the log of dispatches shows ----------------------------------------------------

  lemma {:induction false} PrefixAfterFirst(sent: seq<Step>, steps: seq<Step>, i: nat)
    requires 0 < i <= |steps|
    ensures sent + steps[..i] == (sent + [steps[0]]) + steps[1..][..i - 1]
  {
  }

  /** The first `Completed` steps each succeeded, and the next one, if there is one, did not. */
  lemma {:induction false} CompletedStopsAtFirstFailure(w: World, sent: seq<Step>, steps: seq<Step>)
    ensures var n := Completed(w, sent, steps);
            && (forall i :: 0 <= i < n ==> Succeeds(w, sent + steps[..i], steps[i]))
            && (n < |steps| ==> !Succeeds(w, sent + steps[..n], steps[n]))
    decreases steps
  {
    if steps != [] {
      assert sent + steps[..0] == sent;
      if Succeeds(w, sent, steps[0]) {
        CompletedStopsAtFirstFailure(w, sent + [steps[0]], steps[1..]);
        forall i | 0 < i <= |steps| ensures sent + steps[..i] == (sent + [steps[0]]) + steps[1..][..i - 1] {
          PrefixAfterFirst(sent, steps, i);
        }
      }
    }
  }

  lemma {:induction false} AnsweredStopsAtFirstRaise(w: World, sent: seq<Step>, steps: seq<Step>)
    ensures var n := Answered(w, sent, steps);
            && (forall i :: 0 <= i < n ==> w.execute(sent + steps[..i], steps[i]).Some?)
            && (n < |steps| ==> w.execute(sent + steps[..n], steps[n]).None?)
    decreases steps
  {
    if steps != [] {
      assert sent + steps[..0] == sent;
      if w.execute(sent, steps[0]).Some? {
        AnsweredStopsAtFirstRaise(w, sent + [steps[0]], steps[1..]);
        forall i | 0 < i <= |steps| ensures sent + steps[..i] == (sent + [steps[0]]) + steps[1..][..i - 1] {
          PrefixAfterFirst(sent, steps, i);
        }
      }
    }
  }

  lemma {:induction false} AllSucceedPointwise(w: World, sent: seq<Step>, steps: seq<Step>)
    ensures AllSucceed(w, sent, steps) <==> forall i :: 0 <= i < |steps| ==> Succeeds(w, sent + steps[..i], steps[i])
    decreases steps
  {
    if steps != [] {
      var next, rest := sent + [steps[0]], steps[1..];
      AllSucceedPointwise(w, next, rest);
      assert sent + steps[..0] == sent;
      forall i | 0 < i < |steps| ensures sent + steps[..i] == next + rest[..i - 1] && rest[i - 1] == steps[i] {
        PrefixAfterFirst(sent, steps, i);
      }
      if forall i :: 0 <= i < |steps| ==> Succeeds(w, sent + steps[..i], steps[i]) {
        forall i | 0 <= i < |rest| ensures Succeeds(w, next + rest[..i], rest[i]) {
          PrefixAfterFirst(sent, steps, i + 1);
          assert Succeeds(w, sent + steps[..i + 1], steps[i + 1]);
        }
      }
    }
  }

  function CompensableAfter(steps: seq<Step>, i: int): nat
    requires 0 <= i <= |steps|
    decreases |steps| - i
  {
    if i == |steps| then 0 else CompensableAfter(steps, i + 1) + if Compensable(steps[i]) then 1 else 0
  }

  lemma {:induction false} CompensableAfterTail(steps: seq<Step>, i: int)
    requires 0 < i <= |steps|
    ensures CompensableAfter(steps, i) == CompensableAfter(steps[1..], i - 1)
    decreases |steps| - i
  {
    if i < |steps| { CompensableAfterTail(steps, i + 1); }
  }

  /** Compensation is exactly the reversal: each compensable step's rollback stands behind those of
    * the compensable steps completed after it, and nothing else is sent.
    */
  lemma {:induction false} UndoReverses(steps: seq<Step>)
    ensures |Undo(steps)| == CompensableAfter(steps, 0)
    ensures forall i :: 0 <= i < |steps| && Compensable(steps[i]) ==>
              CompensableAfter(steps, i + 1) < |Undo(steps)|
                  && Undo(steps)[CompensableAfter(steps, i + 1)] == RollbackOf(steps[i])
    ensures forall i :: 0 <= i < |steps| ==>
              (Compensable(steps[i]) <==> steps[i].rollbackAction.Some? && steps[i].rollbackAction.value != "")
    ensures forall i :: 0 <= i < |steps| && Compensable(steps[i]) ==>
              var undo := Undo(steps)[CompensableAfter(steps, i + 1)];
              && Some(undo.actionType) == steps[i].rollbackAction && undo.target == steps[i].target
              && undo.arguments == steps[i].rollbackArguments && undo.rollbackAction == None
              && undo.expectedResult == "回滚动作执行成功" && undo.rollbackArguments == map[]
  {
    if steps != [] {
      UndoReverses(steps[1..]);
      CompensableAfterTail(steps, 1);
      forall i | 0 <= i < |steps| && Compensable(steps[i])
        ensures CompensableAfter(steps, i + 1) < |Undo(steps)|
                && Undo(steps)[CompensableAfter(steps, i + 1)] == RollbackOf(steps[i])
      {
        CompensableAfterTail(steps, i + 1);
        if i > 0 { assert steps[1..][i - 1] == steps[i]; }
      }
    }
  }

  /** Compensating sends a prefix of the compensations, all of them once the run is over, and rolls back
    * exactly when there was one and all succeeded.
    */
  lemma CompensateShape(w: World, sent: seq<Step>, undo: seq<Step>)
    ensures var x := Compensate(w, sent, undo);
            && !x.status.RunSucceeded?
            && sent <= x.sent <= sent + undo
            && (!x.status.RunRunning? ==> x.sent == sent + undo)
            && (x.status.RunRolledBack? <==>
                  undo != [] && forall i :: 0 <= i < |undo| ==> Succeeds(w, sent + undo[..i], undo[i]))
  {
    AllSucceedPointwise(w, sent, undo);
    AnsweredStopsAtFirstRaise(w, sent, undo);
    var m := Answered(w, sent, undo);
    if m < |undo| { assert !Succeeds(w, sent + undo[..m], undo[m]); }
  }

  /** What was sent of the plan when `n` steps succeeded. */
  function Forward(steps: seq<Step>, n: nat): seq<Step>
    requires n <= |steps|
  {
    if n < |steps| then steps[..n + 1] else steps
  }

  ghost predicate Shape(w: World, sent: seq<Step>, steps: seq<Step>, assetId: string, x: Execution, n: nat)
    requires n <= |steps|
  {
    var begun, undo := sent + Forward(steps, n), Undo(steps[..n]);
    && (forall i :: 0 <= i < n ==> Succeeds(w, sent + steps[..i], steps[i]))
    && (n < |steps| ==> !Succeeds(w, sent + steps[..n], steps[n]))
    && begun <= x.sent <= begun + undo
    && (x.status.RunSucceeded? <==> n == |steps| && Verified(w, sent + steps, assetId))
    && (x.status.RunSucceeded? ==> x.sent == sent + steps)
    && (x.status.RunFailed? || x.status.RunRolledBack? ==> x.sent == begun + undo)
    && (x.status.RunRolledBack? ==>
          undo != [] && forall i :: 0 <= i < |undo| ==> Succeeds(w, begun + undo[..i], undo[i]))
    && (x.status.RunFailed? ==> undo == [] || exists i :: 0 <= i < |undo| && !Succeeds(w, begun + undo[..i], undo[i]))
  }

  /** End states and dispatch log agree, for every plan and every behaviour of dispatcher and
    * verifier. What was sent is a prefix of the plan, stopping at the first step that does not succeed,
    * followed only by the reversed compensations of what had succeeded, all of them once the run is
    * over. The run succeeded exactly when every step did and any required verification passed; one that
    * is over otherwise is rolled back exactly when at least one compensation was due and all succeeded.
    */
  lemma ExecutionShape(w: World, sent: seq<Step>, steps: seq<Step>, assetId: string)
    ensures exists n :: 0 <= n <= |steps| && Shape(w, sent, steps, assetId, Execute(w, sent, steps, assetId), n)
    ensures Verified(w, sent + steps, assetId)
            <==> w.healthy.None? || !("lab-" <= assetId) || w.healthy.value(sent + steps, assetId) == Some(true)
    ensures VerifierRaises(w, sent + steps, assetId)
            <==> w.healthy.Some? && "lab-" <= assetId && w.healthy.value(sent + steps, assetId) == None
  {
    var n := Completed(w, sent, steps);
    assert n == |steps| ==> steps[..n] == steps;
    CompletedStopsAtFirstFailure(w, sent, steps);
    CompensateShape(w, sent + Forward(steps, n), Undo(steps[..n]));
    assert Shape(w, sent, steps, assetId, Execute(w, sent, steps, assetId), n);
  }

  lemma SucceededExactlyWhenVerified(w: World, sent: seq<Step>, steps: seq<Step>, assetId: string)
    ensures Execute(w, sent, steps, assetId).status.RunSucceeded?
            <==> Completed(w, sent, steps) == |steps| && Verified(w, sent + steps, assetId)
  {
    var n := Completed(w, sent, steps);
    CompensateShape(w, sent + Forward(steps, n), Undo(steps[..n]));
    assert n == |steps| ==> steps[..n] == steps;
  }

  ghost predicate LastRaised(w: World, sent: seq<Step>, all: seq<Step>) {
    |all| > |sent| && w.execute(all[..|all| - 1], all[|all| - 1]).None?
  }

  lemma CompensateRunsOn(w: World, before: seq<Step>, sent: seq<Step>, undo: seq<Step>)
    requires |sent| >= |before| && !LastRaised(w, before, sent)
    ensures var x := Compensate(w, sent, undo);
            && (x.status.RunRunning? <==> LastRaised(w, before, x.sent))
            && sent <= x.sent && forall i :: |sent| <= i < |x.sent| - 1 ==> w.execute(x.sent[..i], x.sent[i]).Some?
  {
    var x, m := Compensate(w, sent, undo), Answered(w, sent, undo);
    AnsweredStopsAtFirstRaise(w, sent, undo);
    forall i | |sent| <= i < |x.sent|
      ensures x.sent[..i] == sent + undo[..i - |sent|] && x.sent[i] == undo[i - |sent|]
    {
    }
    if m == |undo| && undo != [] { assert w.execute(sent + undo[..m - 1], undo[m - 1]).Some?; }
    if undo == [] { assert x.sent == sent; }
  }

  /** Some call on the way raises: the step after the completed ones, the verifier, or one of the
    * compensations that a run that does not succeed sends.
    */
  ghost predicate Interrupted(w: World, sent: seq<Step>, steps: seq<Step>, assetId: string) {
    var n := Completed(w, sent, steps);
    || (n < |steps| && w.execute(sent + steps[..n], steps[n]).None?)
    || (n == |steps| && VerifierRaises(w, sent + steps, assetId))
    || (!(n == |steps| && Verified(w, sent + steps, assetId))
        && Answered(w, sent + Forward(steps, n), Undo(steps[..n])) < |Undo(steps[..n])|)
  }

  lemma RunningExactlyWhenInterrupted(w: World, sent: seq<Step>, steps: seq<Step>, assetId: string)
    ensures Execute(w, sent, steps, assetId).status.RunRunning? <==> Interrupted(w, sent, steps, assetId)
  {
    var n := Completed(w, sent, steps);
    assert n == |steps| ==> steps[..n] == steps;
  }

  ghost predicate AnsweredBeforeLast(w: World, sent: seq<Step>, all: seq<Step>) {
    sent <= all && forall i :: |sent| <= i < |all| - 1 ==> w.execute(all[..i], all[i]).Some?
  }

  /** The steps sent of the plan were answered, but possibly the last. */
  lemma ForwardAnswered(w: World, sent: seq<Step>, steps: seq<Step>)
    ensures var n := Completed(w, sent, steps);
            && AnsweredBeforeLast(w, sent, sent + Forward(steps, n))
            && (LastRaised(w, sent, sent + Forward(steps, n))
                <==> n < |steps| && w.execute(sent + steps[..n], steps[n]).None?)
  {
    var n := Completed(w, sent, steps);
    var begun := sent + Forward(steps, n);
    CompletedStopsAtFirstFailure(w, sent, steps);
    forall i | |sent| <= i < |begun|
      ensures begun[..i] == sent + steps[..i - |sent|] && begun[i] == steps[i - |sent|]
    {
    }
    if n == |steps| && steps != [] { assert Succeeds(w, sent + steps[..n - 1], steps[n - 1]); }
  }

  lemma AnsweredAppends(w: World, sent: seq<Step>, begun: seq<Step>, all: seq<Step>)
    requires AnsweredBeforeLast(w, sent, begun) && !LastRaised(w, sent, begun)
    requires begun <= all && forall i :: |begun| <= i < |all| - 1 ==> w.execute(all[..i], all[i]).Some?
    ensures AnsweredBeforeLast(w, sent, all)
  {
    forall i | |sent| <= i < |begun| ensures all[..i] == begun[..i] && all[i] == begun[i] {}
  }

  /** A run is left running exactly when some call on the way raises. In its log that shows as a last
    * dispatch that raised, unless the verifier did; every dispatch before the last was answered.
    */
  lemma RunningExactlyWhenRaised(w: World, sent: seq<Step>, steps: seq<Step>, assetId: string)
    ensures var x := Execute(w, sent, steps, assetId);
            && (x.status.RunRunning? <==> Interrupted(w, sent, steps, assetId))
            && (x.status.RunRunning? <==>
                  LastRaised(w, sent, x.sent)
                  || (Completed(w, sent, steps) == |steps| && VerifierRaises(w, sent + steps, assetId)))
            && AnsweredBeforeLast(w, sent, x.sent)
  {
    var x, n := Execute(w, sent, steps, assetId), Completed(w, sent, steps);
    var begun := sent + Forward(steps, n);
    RunningExactlyWhenInterrupted(w, sent, steps, assetId);
    ForwardAnswered(w, sent, steps);
    if !LastRaised(w, sent, begun) {
      assert n == |steps| ==> steps[..n] == steps;
      CompensateRunsOn(w, sent, begun, Undo(steps[..n]));
      AnsweredAppends(w, sent, begun, Compensate(w, begun, Undo(steps[..n])).sent);
    }
  }

  // ---- the service's loops -----------------------------------------------------------------

  class Executor {
    const world: World
    /** Everything handed to the dispatcher so far. */
    var sent: seq<Step>

    constructor (world: World)
      ensures this.world == world && sent == []
    {
      this.world := world;
      sent := [];
    }

    /** None when the dispatcher raises. */
    method Dispatch(step: Step) returns (r: Option<StepResult>)
      modifies this
      ensures r == world.execute(old(sent), step) && sent == old(sent) + [step]
    {
      r := world.execute(sent, step);
      sent := sent + [step];
    }

    method RunSteps(steps: seq<Step>) returns (completed: seq<Step>, succeeded: bool, raised: bool)
      modifies this
      ensures var n := Completed(world, old(sent), steps);
              && completed == steps[..n] && (succeeded <==> n == |steps|)
              && (raised <==> n < |steps| && world.execute(old(sent) + steps[..n], steps[n]).None?)
              && sent == old(sent) + if n < |steps| then steps[..n + 1] else steps
    {
      completed, succeeded, raised := [], true, false;
      var i := 0;
      while i < |steps|
        invariant 0 <= i <= |steps| && completed == steps[..i] && sent == old(sent) + steps[..i]
        invariant Completed(world, old(sent), steps) == i + Completed(world, sent, steps[i..])
      {
        var result := Dispatch(steps[i]);
        assert steps[i..][1..] == steps[i + 1..];
        if result.None? {
          return completed, false, true;
        }
        if !result.value.succeeded {
          return completed, false, false;
        }
        completed := completed + [steps[i]];
        i := i + 1;
      }
      assert steps[..|steps|] == steps;
    }

    method RollbackSteps(completed: seq<Step>) returns (rollbackSteps: seq<Step>)
      ensures rollbackSteps == Undo(completed)
    {
      rollbackSteps := [];
      var k := |completed|;
      while k > 0
        invariant 0 <= k <= |completed| && rollbackSteps == Undo(completed[k..])
      {
        k := k - 1;
        assert completed[k..][1..] == completed[k + 1..];
        if Compensable(completed[k]) {
          rollbackSteps := rollbackSteps + [RollbackOf(completed[k])];
        }
      }
      assert completed[0..] == completed;
    }

    /** Every compensation is tried, even after one of them failed, unless one raises. */
    method Rollback(completed: seq<Step>) returns (succeeded: bool, raised: bool)
      modifies this
      ensures var x := Compensate(world, old(sent), Undo(completed));
              && sent == x.sent && (raised <==> x.status.RunRunning?)
              && (!raised ==> (succeeded <==> x.status.RunRolledBack?))
    {
      var rollbackSteps := RollbackSteps(completed);
      if rollbackSteps == [] {
        return false, false;
      }
      succeeded, raised := true, false;
      var i := 0;
      while i < |rollbackSteps|
        invariant 0 <= i <= |rollbackSteps| && sent == old(sent) + rollbackSteps[..i]
        invariant AllSucceed(world, old(sent), rollbackSteps)
                  <==> succeeded && AllSucceed(world, sent, rollbackSteps[i..])
        invariant Answered(world, old(sent), rollbackSteps) == i + Answered(world, sent, rollbackSteps[i..])
      {
        assert rollbackSteps[i..][1..] == rollbackSteps[i + 1..];
        var result := Dispatch(rollbackSteps[i]);
        if result.None? {
          return false, true;
        }
        succeeded := succeeded && result.value.succeeded;
        i := i + 1;
      }
      assert rollbackSteps[..i] == rollbackSteps;
    }

    method Run(steps: seq<Step>, assetId: string) returns (status: RunStatus)
      modifies this
      ensures Execution(sent, status) == Execute(world, old(sent), steps, assetId)
    {
      var completed, succeeded, raised := RunSteps(steps);
      if raised {
        return RunRunning;
      }
      if succeeded && world.healthy.Some? && "lab-" <= assetId {
        var healthy := world.healthy.value(sent, assetId);
        if healthy.None? {
          return RunRunning;
        }
        succeeded := healthy.value;
      }
      if succeeded {
        return RunSucceeded;
      }
      assert |steps| == Completed(world, old(sent), steps) ==> steps[..|steps|] == steps;
      var rolledBack, cut := Rollback(completed);
      status := if cut then RunRunning else if rolledBack then RunRolledBack else RunFailed;
    }
  }
}
