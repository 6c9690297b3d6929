/** Rule evaluation: streak counters with hysteresis, and the sliding window of counter samples. */
module Monitoring {
  import opened Numbers
  import opened Outcomes

  /** `consecutiveCycles` and `recoveryCycles` are at least one. */
  datatype RuleData = RuleData(
    id: string,
    operator: string,
    threshold: real,
    consecutiveCycles: int,
    recoveryCycles: int,
    severity: string,
    windowSeconds: int)

  type Rule = r: RuleData | r.consecutiveCycles >= 1 && r.recoveryCycles >= 1
    witness RuleData("", "gt", 0.0, 1, 1, "high", 0)

  datatype RuleState = RuleState(breachStreak: nat, recoveryStreak: nat, alerting: bool)

  const FRESH := RuleState(0, 0, false)

  /** An operator outside the allow list never breaches. */
  predicate Compare(value: real, operator: string, threshold: real) {
    if operator == "gt" then value > threshold
    else if operator == "increase_gte" || operator == "gte" then value >= threshold
    else if operator == "lt" then value < threshold
    else false
  }

  /** The allowed comparisons, one by one. */
  ghost predicate Past(value: real, operator: string, threshold: real) {
    || (operator == "gt" && value > threshold)
    || ((operator == "gte" || operator == "increase_gte") && value >= threshold)
    || (operator == "lt" && value < threshold)
  }

  function Observe(rule: Rule, state: RuleState, breached: bool): RuleState {
    if breached then
      RuleState(state.breachStreak + 1, 0, state.alerting || state.breachStreak + 1 >= rule.consecutiveCycles)
    else if state.alerting then
      RuleState(0, state.recoveryStreak + 1, state.recoveryStreak + 1 < rule.recoveryCycles)
    else
      RuleState(0, Min(state.recoveryStreak + 1, rule.recoveryCycles), false)
  }

  function Observed(rule: Rule, history: seq<bool>): RuleState {
    if history == [] then FRESH
    else Observe(rule, Observed(rule, history[..|history| - 1]), history[|history| - 1])
  }

  // ---- what the counters mean --------------------------------------------------------------

  /** Length of the run of `x` the history ends with. */
  function Trailing(history: seq<bool>, x: bool): (n: nat)
    ensures n <= |history|
  {
    if history == [] || history[|history| - 1] != x then 0 else 1 + Trailing(history[..|history| - 1], x)
  }

  /** The trailing run is of `x` throughout, and as long as can be. */
  lemma {:induction false} TrailingIsARun(history: seq<bool>, x: bool)
    ensures var n := Trailing(history, x);
            && (forall i :: |history| - n <= i < |history| ==> history[i] == x)
            && (n < |history| ==> history[|history| - n - 1] != x)
  {
    if history != [] && history[|history| - 1] == x {
      TrailingIsARun(history[..|history| - 1], x);
    }
  }

  /** The `m` evaluations up to the `j`-th all came out as `x`. */
  ghost predicate RunEnds(history: seq<bool>, j: int, x: bool, m: int)
    requires 0 <= j <= |history|
  {
    m <= j && forall k :: 0 <= k && j - m <= k < j ==> history[k] == x
  }

  lemma TrailingIsLongest(history: seq<bool>, x: bool, m: int)
    requires m >= 1
    ensures RunEnds(history, |history|, x, m) <==> Trailing(history, x) >= m
  {
    TrailingIsARun(history, x);
    var n := Trailing(history, x);
    if n < m <= |history| { assert history[|history| - n - 1] != x; }
  }

  ghost predicate RaisedAt(rule: Rule, history: seq<bool>, i: int) {
    && 0 <= i <= |history|
    && RunEnds(history, i, true, rule.consecutiveCycles)
    && forall j :: i <= j <= |history| ==> !RunEnds(history, j, false, rule.recoveryCycles)
  }

  /** Some breach run was long enough, and no healthy run since was. */
  ghost predicate Alerting(rule: Rule, history: seq<bool>) {
    exists i :: RaisedAt(rule, history, i)
  }

  lemma AlertingStep(rule: Rule, h: seq<bool>, x: bool)
    ensures Alerting(rule, h + [x])
            <==> (Trailing(h + [x], true) >= rule.consecutiveCycles
                  || (Alerting(rule, h) && Trailing(h + [x], false) < rule.recoveryCycles))
  {
    var h' := h + [x];
    TrailingIsLongest(h', true, rule.consecutiveCycles);
    TrailingIsLongest(h', false, rule.recoveryCycles);
    forall j, y, m | 0 <= j <= |h| ensures RunEnds(h', j, y, m) <==> RunEnds(h, j, y, m) { RunsAlike(h, x, j, y, m); }
    RaisedInStep(rule, h, h');
  }

  lemma RunsAlike(h: seq<bool>, x: bool, j: int, y: bool, m: int)
    requires 0 <= j <= |h|
    ensures RunEnds(h + [x], j, y, m) <==> RunEnds(h, j, y, m)
  {
    forall k | 0 <= k < |h| ensures (h + [x])[k] == h[k] {}
  }

  lemma RaisedInStep(rule: Rule, h: seq<bool>, h': seq<bool>)
    requires |h'| == |h| + 1 && forall j, y, m :: 0 <= j <= |h| ==> (RunEnds(h', j, y, m) <==> RunEnds(h, j, y, m))
    ensures Alerting(rule, h')
            <==> RunEnds(h', |h'|, true, rule.consecutiveCycles)
                 || (Alerting(rule, h) && !RunEnds(h', |h'|, false, rule.recoveryCycles))
  {
    if RunEnds(h', |h'|, true, rule.consecutiveCycles) {
      assert h'[|h'| - 1];
      assert RaisedAt(rule, h', |h'|);
    }
    if Alerting(rule, h) && !RunEnds(h', |h'|, false, rule.recoveryCycles) {
      var i :| RaisedAt(rule, h, i);
      assert RaisedAt(rule, h', i);
    }
    if Alerting(rule, h') {
      var i :| RaisedAt(rule, h', i);
      if i <= |h| { assert RaisedAt(rule, h, i); }
    }
  }

  /** The incremental counters are a fast form of the whole history: the breach streak is the
    * trailing breach run, the recovery streak the trailing healthy run capped at `recoveryCycles`,
    * and the alert flag the hysteresis condition.
    */
  lemma {:induction false} CountersMeanHistory(rule: Rule, history: seq<bool>)
    ensures var s := Observed(rule, history);
            && s.breachStreak == Trailing(history, true)
            && s.recoveryStreak == Min(Trailing(history, false), rule.recoveryCycles)
            && (s.alerting <==> Alerting(rule, history))
            && (s.alerting ==> s.recoveryStreak < rule.recoveryCycles)
  {
    if history != [] {
      var h, x := history[..|history| - 1], history[|history| - 1];
      assert history == h + [x];
      CountersMeanHistory(rule, h);
      AlertingStep(rule, h, x);
    } else {
      forall i ensures !RaisedAt(rule, history, i) {}
    }
  }

  // ---- how often an alert can be raised ----------------------------------------------------

  function Raises(rule: Rule, history: seq<bool>): nat {
    if history == [] then 0
    else
      var h := history[..|history| - 1];
      Raises(rule, h) + if Observed(rule, history).alerting && !Observed(rule, h).alerting then 1 else 0
  }

  /** Evaluations spent so far: every raise but the current one cost a breach and a recovery run. */
  lemma {:induction false} RaisesCost(rule: Rule, history: seq<bool>)
    ensures var s, k := Observed(rule, history), Raises(rule, history);
            && (s.alerting ==>
                  k >= 1 && k * rule.consecutiveCycles + (k - 1) * rule.recoveryCycles + s.recoveryStreak <= |history|)
            && (!s.alerting ==> s.breachStreak < rule.consecutiveCycles)
            && (!s.alerting ==> k * rule.consecutiveCycles + k * rule.recoveryCycles + s.breachStreak <= |history|)
  {
    if history != [] {
      var h := history[..|history| - 1];
      RaisesCost(rule, h);
      var k := Raises(rule, h);
      OneFewer(k + 1, rule.consecutiveCycles);
      OneFewer(k, rule.recoveryCycles);
    }
  }

  /** k raises need at least k breach runs and k - 1 recovery runs between them. */
  lemma FlappingIsBounded(rule: Rule, history: seq<bool>)
    ensures var k := Raises(rule, history);
            k > 0 ==> k * rule.consecutiveCycles + (k - 1) * rule.recoveryCycles <= |history|
  {
    RaisesCost(rule, history);
    OneFewer(Raises(rule, history), rule.recoveryCycles);
  }

  lemma OneFewer(k: int, r: int)
    ensures (k - 1) * r == k * r - r
  {
  }

  // ---- the window of counter samples -------------------------------------------------------

  datatype Sample = Sample(at: int, value: real)

  ghost predicate InTimeOrder(log: seq<Sample>) {
    forall i, j :: 0 <= i <= j < |log| ==> log[i].at <= log[j].at
  }

  /** Drops samples older than the boundary from the left, but never the newest one. */
  function Evict(deque: seq<Sample>, boundary: int): (r: seq<Sample>)
    ensures deque != [] ==> r != [] && r[|r| - 1] == deque[|deque| - 1]
  {
    if |deque| > 1 && deque[0].at < boundary then Evict(deque[1..], boundary) else deque
  }

  function Since(log: seq<Sample>, boundary: int): seq<Sample> {
    if log == [] then []
    else Since(log[..|log| - 1], boundary) + if log[|log| - 1].at >= boundary then [log[|log| - 1]] else []
  }

  /** The deque after every sample of the log went through it. */
  function Windowed(window: int, log: seq<Sample>): (r: seq<Sample>)
    ensures log != [] ==> r != [] && r[|r| - 1] == log[|log| - 1]
  {
    if log == [] then []
    else
      var x := log[|log| - 1];
      Evict(Windowed(window, log[..|log| - 1]) + [x], x.at - window)
  }

  lemma {:induction false} SinceAll(s: seq<Sample>, boundary: int)
    requires forall i :: 0 <= i < |s| ==> s[i].at >= boundary
    ensures Since(s, boundary) == s
  {
    if s != [] {
      SinceAll(s[..|s| - 1], boundary);
      assert s == s[..|s| - 1] + [s[|s| - 1]];
    }
  }

  lemma {:induction false} SinceConcat(a: seq<Sample>, b: seq<Sample>, boundary: int)
    ensures Since(a + b, boundary) == Since(a, boundary) + Since(b, boundary)
  {
    if b == [] {
      assert a + b == a;
    } else {
      assert (a + b)[..|a + b| - 1] == a + b[..|b| - 1];
      SinceConcat(a, b[..|b| - 1], boundary);
    }
  }

  lemma {:induction false} SinceTwice(s: seq<Sample>, b1: int, b2: int)
    requires b1 <= b2
    ensures Since(Since(s, b1), b2) == Since(s, b2)
  {
    if s != [] {
      var front, x := s[..|s| - 1], s[|s| - 1];
      SinceTwice(front, b1, b2);
      SinceConcat(Since(front, b1), if x.at >= b1 then [x] else [], b2);
      assert [x][..0] == [];
    }
  }

  lemma {:induction false} EvictIsSince(s: seq<Sample>, boundary: int)
    requires s != [] && InTimeOrder(s)
    ensures Evict(s, boundary) == if Since(s, boundary) == [] then [s[|s| - 1]] else Since(s, boundary)
  {
    if s[0].at >= boundary {
      SinceAll(s, boundary);
    } else {
      SinceConcat([s[0]], s[1..], boundary);
      assert s == [s[0]] + s[1..] && [s[0]][..0] == [];
      if |s| > 1 { EvictIsSince(s[1..], boundary); }
    }
  }

  lemma {:induction false} SinceWithin(s: seq<Sample>, boundary: int)
    ensures forall y :: y in Since(s, boundary) ==> y in s && y.at >= boundary
  {
    if s != [] { SinceWithin(s[..|s| - 1], boundary); }
  }

  lemma {:induction false} SinceOrdered(s: seq<Sample>, boundary: int)
    requires InTimeOrder(s)
    ensures InTimeOrder(Since(s, boundary))
  {
    if s != [] {
      SinceOrdered(s[..|s| - 1], boundary);
      SinceWithin(s[..|s| - 1], boundary);
    }
  }

  lemma OrderedPrefix(front: seq<Sample>, x: Sample)
    requires InTimeOrder(front + [x])
    ensures InTimeOrder(front) && forall y :: y in front ==> y.at <= x.at
  {
    var all := front + [x];
    forall i, j | 0 <= i <= j < |front| ensures front[i].at <= front[j].at { assert all[i].at <= all[j].at; }
    forall i | 0 <= i < |front| ensures front[i].at <= x.at { assert all[i].at <= all[|front|].at; }
  }

  lemma OrderedAppend(s: seq<Sample>, x: Sample)
    requires InTimeOrder(s) && forall y :: y in s ==> y.at <= x.at
    ensures InTimeOrder(s + [x])
  {
  }

  lemma WindowGrows(front: seq<Sample>, x: Sample, older: int, boundary: int)
    requires InTimeOrder(front) && (forall y :: y in front ==> y.at <= x.at) && older <= boundary <= x.at
    ensures Evict(Since(front, older) + [x], boundary) == Since(front + [x], boundary)
  {
    var kept := Since(front, older);
    SinceOrdered(front, older);
    SinceWithin(front, older);
    OrderedAppend(kept, x);
    EvictIsSince(kept + [x], boundary);
    SinceConcat(kept, [x], boundary);
    SinceConcat(front, [x], boundary);
    SinceTwice(front, older, boundary);
    SinceAll([x], boundary);
  }

  lemma EvictOlder(older: Sample, x: Sample, boundary: int)
    requires older.at < boundary
    ensures Evict([older] + [x], boundary) == [x]
  {
    assert ([older] + [x])[1..] == [x];
  }

  /** The whole log cut to the window of its newest sample; a window of negative length, which
    * excludes even that one, leaves it alone.
    */
  function WindowOf(window: int, log: seq<Sample>): seq<Sample>
    requires log != []
  {
    var newest := log[|log| - 1];
    if window >= 0 then Since(log, newest.at - window) else [newest]
  }

  lemma WindowedStep(window: int, front: seq<Sample>, x: Sample, deque: seq<Sample>)
    requires front != [] && deque == WindowOf(window, front)
    requires InTimeOrder(front) && forall y :: y in front ==> y.at <= x.at
    ensures Evict(deque + [x], x.at - window) == WindowOf(window, front + [x])
  {
    var last, all := front[|front| - 1], front + [x];
    assert all[|all| - 1] == x;
    assert last.at <= x.at by { assert last in front; }
    if window >= 0 {
      WindowGrows(front, x, last.at - window, x.at - window);
      assert WindowOf(window, all) == Since(all, x.at - window);
    } else {
      assert deque == [last];
      EvictOlder(last, x, x.at - window);
    }
  }

  lemma WindowedSnoc(window: int, front: seq<Sample>, x: Sample)
    ensures Windowed(window, front + [x]) == Evict(Windowed(window, front) + [x], x.at - window)
  {
    assert (front + [x])[..|front|] == front;
  }

  lemma WindowOfOne(window: int, x: Sample)
    ensures WindowOf(window, [x]) == [x]
  {
    if window >= 0 { SinceAll([x], x.at - window); }
  }

  /** For samples in time order the deque is the whole log cut to the window. */
  lemma {:induction false} DequeIsWindow(window: int, log: seq<Sample>)
    requires log != [] && InTimeOrder(log)
    ensures Windowed(window, log) == WindowOf(window, log)
    decreases |log|
  {
    var n := |log| - 1;
    var front, x := log[..n], log[n];
    assert log == front + [x];
    WindowedSnoc(window, front, x);
    if n == 0 {
      assert Windowed(window, front) + [x] == log == [x];
      WindowOfOne(window, x);
    } else {
      OrderedPrefix(front, x);
      DequeIsWindow(window, front);
      WindowedStep(window, front, x, WindowOf(window, front));
    }
  }

  // ---- the service -------------------------------------------------------------------------

  datatype Evaluation = Evaluation(
    ruleId: string, assetId: string, value: real, state: string,
    breachStreak: nat, recoveryStreak: nat, evaluatedAt: int)

  function StateName(state: RuleState, breached: bool): string {
    if state.alerting then "alerting" else if breached then "pending" else "healthy"
  }

  function StateAt(states: map<(string, string), RuleState>, key: (string, string)): RuleState {
    if key in states then states[key] else FRESH
  }

  function SamplesAt(history: map<(string, string), seq<Sample>>, key: (string, string)): seq<Sample> {
    if key in history then history[key] else []
  }

  /** The samples an increase rule compares, after one more. */
  function Deque(rule: Rule, before: seq<Sample>, sample: real, now: int): (r: seq<Sample>)
    ensures r != []
  {
    Evict(before + [Sample(now, sample)], now - 1000 * rule.windowSeconds)
  }

  function ValueOf(rule: Rule, before: seq<Sample>, sample: real, now: int): real {
    if rule.operator == "increase_gte" then sample - Deque(rule, before, sample, now)[0].value else sample
  }

  /** Only increase rules remember samples. */
  function Remember(rule: Rule, history: map<(string, string), seq<Sample>>, assetId: string, sample: real, now: int)
    : map<(string, string), seq<Sample>>
  {
    var key := (rule.id, assetId);
    if rule.operator == "increase_gte" then history[key := Deque(rule, SamplesAt(history, key), sample, now)]
        else history
  }

  // ---- what is compared --------------------------------------------------------------------

  /** The first sample of the log at or after the boundary, or the last one if there is none. */
  ghost predicate IsOldest(log: seq<Sample>, boundary: int, i: int) {
    && 0 <= i < |log|
    && (forall j :: 0 <= j < i ==> log[j].at < boundary)
    && (log[i].at >= boundary || i == |log| - 1)
  }

  lemma SinceTail(x: Sample, rest: seq<Sample>, boundary: int)
    requires x.at < boundary
    ensures Since([x] + rest, boundary) == Since(rest, boundary)
  {
    SinceConcat([x], rest, boundary);
    assert [x][..0] == [];
  }

  lemma OldestOfTail(x: Sample, rest: seq<Sample>, boundary: int, i: int)
    requires x.at < boundary && IsOldest(rest, boundary, i)
    ensures IsOldest([x] + rest, boundary, i + 1) && ([x] + rest)[i + 1..] == rest[i..]
  {
  }

  lemma OrderedTail(x: Sample, rest: seq<Sample>)
    requires InTimeOrder([x] + rest)
    ensures InTimeOrder(rest)
  {
    var all := [x] + rest;
    forall i, j | 0 <= i <= j < |rest| ensures rest[i].at <= rest[j].at { assert all[i + 1].at <= all[j + 1].at; }
  }

  lemma {:induction false} SinceStartsAtOldest(log: seq<Sample>, boundary: int) returns (i: int)
    requires log != [] && InTimeOrder(log)
    ensures IsOldest(log, boundary, i)
    ensures Since(log, boundary) == if log[i].at >= boundary then log[i..] else []
  {
    if log[0].at >= boundary {
      SinceAll(log, boundary);
      i := 0;
    } else {
      var x, rest := log[0], log[1..];
      assert log == [x] + rest;
      SinceTail(x, rest, boundary);
      OrderedTail(x, rest);
      if rest == [] {
        i := 0;
      } else {
        var k := SinceStartsAtOldest(rest, boundary);
        OldestOfTail(x, rest, boundary, k);
        i := k + 1;
      }
    }
  }

  /** The sample itself; for an increase rule its growth since the oldest sample of the window. */
  ghost predicate IsReading(rule: Rule, log: seq<Sample>, value: real) {
    log != []
    && var last := log[|log| - 1];
    && (rule.operator != "increase_gte" ==> value == last.value)
    && (rule.operator == "increase_gte" ==>
          exists i :: IsOldest(log, last.at - 1000 * rule.windowSeconds, i) && value == last.value - log[i].value)
  }

  lemma WindowStartsAtOldest(window: int, log: seq<Sample>) returns (i: int)
    requires log != [] && InTimeOrder(log)
    ensures IsOldest(log, log[|log| - 1].at - window, i)
    ensures WindowOf(window, log) != [] && WindowOf(window, log)[0] == log[i]
  {
    var boundary := log[|log| - 1].at - window;
    if window >= 0 {
      i := SinceStartsAtOldest(log, boundary);
      FirstOfSuffix(log, i);
    } else {
      i := |log| - 1;
    }
  }

  lemma FirstOfSuffix(log: seq<Sample>, i: int)
    requires 0 <= i < |log|
    ensures log[i..] != [] && log[i..][0] == log[i]
  {
  }

  lemma ReadingIsSpelled(rule: Rule, log: seq<Sample>)
    requires log != [] && (rule.operator == "increase_gte" ==> InTimeOrder(log))
    ensures IsReading(rule, log, Reading(rule, log))
  {
    if rule.operator == "increase_gte" { var i := WindowStartsAtOldest(1000 * rule.windowSeconds, log); }
  }

  /** The sample itself; for an increase rule its growth since the oldest sample of the window. */
  ghost function Reading(rule: Rule, log: seq<Sample>): real
    requires log != []
  {
    var last := log[|log| - 1];
    if rule.operator == "increase_gte" then last.value - WindowOf(1000 * rule.windowSeconds, log)[0].value
        else last.value
  }

  lemma EvictedIsWindow(window: int, log: seq<Sample>, x: Sample, all: seq<Sample>)
    requires all == log + [x] && InTimeOrder(all)
    ensures Evict(Windowed(window, log) + [x], x.at - window) == WindowOf(window, all)
  {
    WindowedSnoc(window, log, x);
    DequeIsWindow(window, all);
  }

  lemma DequeAfterLog(rule: Rule, log: seq<Sample>, sample: real, now: int, window: int)
    requires window == 1000 * rule.windowSeconds && InTimeOrder(log + [Sample(now, sample)])
    ensures Deque(rule, Windowed(window, log), sample, now) == WindowOf(window, log + [Sample(now, sample)])
  {
    var x := Sample(now, sample);
    EvictedIsWindow(window, log, x, log + [x]);
  }

  /** The deque of all samples so far and one more gives the reading, for sample times that never
    * decrease.
    */
  lemma ValueIsReading(rule: Rule, log: seq<Sample>, sample: real, now: int)
    requires rule.operator == "increase_gte" ==> InTimeOrder(log + [Sample(now, sample)])
    ensures ValueOf(rule, Windowed(1000 * rule.windowSeconds, log), sample, now)
            == Reading(rule, log + [Sample(now, sample)])
  {
    var all := log + [Sample(now, sample)];
    assert all[|all| - 1] == Sample(now, sample);
    if rule.operator == "increase_gte" { DequeAfterLog(rule, log, sample, now, 1000 * rule.windowSeconds); }
  }

  class MonitoringService {
    var states: map<(string, string), RuleState>
    var history: map<(string, string), seq<Sample>>

    constructor ()
      ensures states == map[] && history == map[]
    {
      states, history := map[], map[];
    }

    /** The compared value: the sample itself, or its growth over the oldest sample in the window. */
    method RuleValue(rule: Rule, assetId: string, value: real, now: int) returns (r: real)
      modifies this`history
      ensures r == ValueOf(rule, SamplesAt(old(history), (rule.id, assetId)), value, now)
      ensures history == Remember(rule, old(history), assetId, value, now)
      ensures rule.operator != "increase_gte" ==> r == value && history == old(history)
      ensures rule.operator == "increase_gte" ==>
                var key := (rule.id, assetId);
                var before := if key in old(history) then old(history)[key] else [];
                var deque := Evict(before + [Sample(now, value)], now - 1000 * rule.windowSeconds);
                history == old(history)[key := deque] && r == value - deque[0].value
    {
      if rule.operator != "increase_gte" {
        return value;
      }
      var key := (rule.id, assetId);
      var deque := if key in history then history[key] else [];
      deque := deque + [Sample(now, value)];
      var boundary := now - 1000 * rule.windowSeconds;
      ghost var full := deque;
      while |deque| > 1 && deque[0].at < boundary
        invariant deque != [] && Evict(deque, boundary) == Evict(full, boundary)
        decreases |deque|
      {
        deque := deque[1..];
      }
      history := history[key := deque];
      r := value - deque[0].value;
    }

    method EvaluateOne(rule: Rule, assetId: string, value: real, now: int) returns (evaluation: Evaluation)
      modifies this`states
      ensures var key := (rule.id, assetId);
              var breached := Compare(value, rule.operator, rule.threshold);
              var state := Observe(rule, StateAt(old(states), key), breached);
              && states == old(states)[key := state]
              && evaluation == Evaluation(rule.id, assetId, value, StateName(state, breached),
                                          state.breachStreak, state.recoveryStreak, now)
      ensures evaluation.breachStreak > 0 <==> Past(value, rule.operator, rule.threshold)
      ensures evaluation.state == "alerting" <==> states[(rule.id, assetId)].alerting
      ensures !states[(rule.id, assetId)].alerting ==>
                evaluation.state == if Past(value, rule.operator, rule.threshold) then "pending" else "healthy"
    {
      var key := (rule.id, assetId);
      var state := if key in states then states[key] else FRESH;
      var breached := Compare(value, rule.operator, rule.threshold);
      if breached {
        state := state.(breachStreak := state.breachStreak + 1, recoveryStreak := 0);
        if state.breachStreak >= rule.consecutiveCycles {
          state := state.(alerting := true);
        }
      } else {
        state := state.(breachStreak := 0);
        if state.alerting {
          state := state.(recoveryStreak := state.recoveryStreak + 1);
          if state.recoveryStreak >= rule.recoveryCycles {
            state := state.(alerting := false);
          }
        } else {
          state := state.(recoveryStreak := Min(state.recoveryStreak + 1, rule.recoveryCycles));
        }
      }
      states := states[key := state];
      var stateName := if state.alerting then "alerting" else if breached then "pending" else "healthy";
      evaluation := Evaluation(rule.id, assetId, value, stateName, state.breachStreak, state.recoveryStreak, now);
    }
  }
}
