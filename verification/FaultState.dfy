/** Timed application faults, and the one background thread a CPU fault runs on. */
module FaultStateCore {
  import opened Outcomes

  const CPU := "container_cpu_spike"

  const SUPPORTED := {CPU, "request_latency", "http_5xx"}

  datatype Refusal = UnknownScenario | DurationOutOfRange

  /** What the lock protects. */
  datatype Store = Store(deadlines: map<string, real>, running: bool)

  // ---- the critical sections ---------------------------------------------------------------

  predicate Valid(scenario: string, duration: int) {
    scenario in SUPPORTED && 1 <= duration <= 120
  }

  function Activated(s: Store, scenario: string, duration: int, now: real): Store {
    Store(s.deadlines[scenario := now + duration as real], s.running || scenario == CPU)
  }

  predicate StartsWorker(s: Store, scenario: string) {
    scenario == CPU && !s.running
  }

  function Cleared(s: Store, scenario: string): Store {
    s.(deadlines := s.deadlines - {scenario})
  }

  predicate IsActive(s: Store, scenario: string, now: real) {
    scenario in s.deadlines && s.deadlines[scenario] > now
  }

  /** Checking drops a deadline that has passed. */
  function Checked(s: Store, scenario: string, now: real): Store {
    if IsActive(s, scenario, now) then s else Cleared(s, scenario)
  }

  class FaultState {
    var deadlines: map<string, real>
    var cpuWorkerRunning: bool

    constructor ()
      ensures Contents() == Store(map[], false)
    {
      deadlines, cpuWorkerRunning := map[], false;
    }

    function Contents(): Store
      reads this
    {
      Store(deadlines, cpuWorkerRunning)
    }

    /** The second result says whether the caller now starts a worker, outside the lock. */
    method Activate(scenario: string, duration: int, now: real) returns (r: Result<real, Refusal>, startWorker: bool)
      modifies this
      ensures r == if scenario !in {"container_cpu_spike", "request_latency", "http_5xx"} then Err(UnknownScenario)
                   else if duration < 1 || duration > 120 then Err(DurationOutOfRange)
                   else Ok(now + duration as real)
      ensures startWorker <==> r.Ok? && scenario == "container_cpu_spike" && !old(cpuWorkerRunning)
      ensures r.Ok? ==> deadlines == old(deadlines)[scenario := now + duration as real]
      ensures cpuWorkerRunning <==> old(cpuWorkerRunning) || startWorker
      ensures startWorker == (Valid(scenario, duration) && StartsWorker(old(Contents()), scenario))
      ensures Contents()
              == if Valid(scenario, duration) then Activated(old(Contents()), scenario, duration, now)
                 else old(Contents())
    {
      if scenario !in SUPPORTED { return Err(UnknownScenario), false; }
      if duration < 1 || duration > 120 { return Err(DurationOutOfRange), false; }
      var deadline := now + duration as real;
      deadlines := deadlines[scenario := deadline];
      startWorker := scenario == CPU && !cpuWorkerRunning;
      if startWorker { cpuWorkerRunning := true; }
      r := Ok(deadline);
    }

    method Clear(scenario: string)
      modifies this`deadlines
      ensures Contents() == Cleared(old(Contents()), scenario) == Cleared(Contents(), scenario)
      ensures scenario !in deadlines
              && forall other :: other in old(deadlines) && other != scenario ==> other in deadlines
    {
      deadlines := deadlines - {scenario};
    }

    method Active(scenario: string, now: real) returns (active: bool)
      modifies this`deadlines
      ensures active == IsActive(old(Contents()), scenario, now)
      ensures active <==> scenario in old(deadlines) && now < old(deadlines)[scenario]
      ensures deadlines == if active then old(deadlines) else old(deadlines) - {scenario}
      ensures Contents() == Checked(old(Contents()), scenario, now)
    {
      if scenario !in deadlines { return false; }
      if deadlines[scenario] <= now {
        deadlines := deadlines - {scenario};
        return false;
      }
      active := true;
    }

    method FinishWorker()
      modifies this`cpuWorkerRunning
      ensures !cpuWorkerRunning && deadlines == old(deadlines)
    {
      cpuWorkerRunning := false;
    }
  }
}
