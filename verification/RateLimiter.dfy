/** The sliding-window rate limiter: one queue of admission times per key. */
module RateLimiter {

  // ---- one key -----------------------------------------------------------------------------

  /** The queue, everything ever admitted, and how often the queue was popped. */
  datatype Window = Window(queue: seq<real>, admitted: seq<real>, pops: nat)

  /** The queue after its front has been popped down to times later than `boundary`. */
  function Expire(queue: seq<real>, boundary: real): (r: seq<real>)
    ensures |r| <= |queue|
  {
    if |queue| > 0 && queue[0] <= boundary then Expire(queue[1..], boundary) else queue
  }

  predicate Admits(limit: nat, window: real, queue: seq<real>, now: real) {
    |Expire(queue, now - window)| < limit
  }

  function Queued(limit: nat, window: real, queue: seq<real>, now: real): seq<real> {
    var kept := Expire(queue, now - window);
    if Admits(limit, window, queue, now) then kept + [now] else kept
  }

  function Admit(limit: nat, window: real, s: Window, now: real): Window {
    Window(Queued(limit, window, s.queue, now),
           if Admits(limit, window, s.queue, now) then s.admitted + [now] else s.admitted,
           s.pops + |s.queue| - |Expire(s.queue, now - window)|)
  }

  /** All requests of one key, in the order they take the lock. */
  function RunKey(limit: nat, window: real, times: seq<real>): Window {
    if times == [] then Window([], [], 0)
    else Admit(limit, window, RunKey(limit, window, times[..|times| - 1]), times[|times| - 1])
  }

  function Keep(x: real, low: real, high: real): seq<real> {
    if low < x <= high then [x] else []
  }

  /** Times in the half-open window (low, high]. */
  function Between(s: seq<real>, low: real, high: real): seq<real> {
    if s == [] then [] else Between(s[..|s| - 1], low, high) + Keep(s[|s| - 1], low, high)
  }

  ghost predicate UpTo(s: seq<real>, high: real) {
    forall x :: x in s ==> x <= high
  }

  /** No time lies further than `d` behind an earlier one. */
  ghost predicate LateBy(s: seq<real>, d: real) {
    s != [] ==> UpTo(s[..|s| - 1], s[|s| - 1] + d) && LateBy(s[..|s| - 1], d)
  }

  ghost predicate InOrder(s: seq<real>) {
    LateBy(s, 0.0)
  }

  lemma Parts(s: seq<real>, front: seq<real>, last: real)
    requires s != [] && front == s[..|s| - 1] && last == s[|s| - 1]
    ensures s == front + [last] && last in s
    ensures forall x :: x in s <==> x in front || x == last
  {
  }

  // ---- the queue is the window -------------------------------------------------------------

  lemma BetweenAppend(s: seq<real>, x: real, low: real, high: real)
    ensures Between(s + [x], low, high) == Between(s, low, high) + Keep(x, low, high)
  {
    assert (s + [x])[..|s|] == s;
  }

  lemma {:induction false} BetweenLater(s: seq<real>, low: real, later: real, high: real)
    requires low <= later
    ensures Between(Between(s, low, high), later, high) == Between(s, later, high)
  {
    if s != [] {
      var front, last := s[..|s| - 1], s[|s| - 1];
      BetweenLater(front, low, later, high);
      if low < last <= high {
        BetweenAppend(Between(front, low, high), last, later, high);
      } else {
        assert Between(s, low, high) == Between(front, low, high);
      }
    }
  }

  lemma {:induction false} RaiseTop(s: seq<real>, low: real, high: real, higher: real)
    requires high <= higher && UpTo(s, high)
    ensures Between(s, low, high) == Between(s, low, higher)
  {
    if s != [] {
      var front, last := s[..|s| - 1], s[|s| - 1];
      Parts(s, front, last);
      RaiseTop(front, low, high, higher);
      assert Keep(last, low, high) == Keep(last, low, higher);
    }
  }

  lemma {:induction false} FilterAll(s: seq<real>, low: real, high: real)
    requires forall x :: x in s ==> low < x <= high
    ensures Between(s, low, high) == s
  {
    if s != [] {
      var front, last := s[..|s| - 1], s[|s| - 1];
      Parts(s, front, last);
      FilterAll(front, low, high);
      assert Keep(last, low, high) == [last];
    }
  }

  lemma {:induction false} FilterTail(s: seq<real>, low: real, high: real)
    requires |s| > 0 && s[0] <= low
    ensures Between(s, low, high) == Between(s[1..], low, high)
  {
    if |s| > 1 {
      FilterTail(s[..|s| - 1], low, high);
      assert s[1..][..|s| - 2] == s[..|s| - 1][1..];
    } else {
      assert s[..0] == [] && s[1..] == [];
    }
  }

  lemma {:induction false} HeadIsLeast(s: seq<real>)
    requires |s| > 0 && InOrder(s)
    ensures forall x :: x in s ==> s[0] <= x
    ensures InOrder(s[1..])
  {
    var front, last := s[..|s| - 1], s[|s| - 1];
    Parts(s, front, last);
    if |s| > 1 {
      HeadIsLeast(front);
      assert front[0] in front && front[0] == s[0];
      var tail := front[1..];
      InTail(front, tail);
      assert s[1..] == tail + [last];
      AppendAscends(tail, last);
    } else {
      assert s[1..] == [];
    }
  }

  lemma InTail(s: seq<real>, tail: seq<real>)
    requires |s| > 0 && tail == s[1..]
    ensures forall x :: x in s <==> x == s[0] || x in tail
  {
    assert s == [s[0]] + tail;
  }

  /** On ascending times, popping the front is filtering. */
  lemma {:induction false} ExpireFilters(queue: seq<real>, boundary: real, high: real)
    requires InOrder(queue) && UpTo(queue, high)
    ensures Expire(queue, boundary) == Between(queue, boundary, high)
  {
    if |queue| > 0 {
      HeadIsLeast(queue);
      if queue[0] <= boundary {
        InTail(queue, queue[1..]);
        ExpireFilters(queue[1..], boundary, high);
        FilterTail(queue, boundary, high);
      } else {
        FilterAll(queue, boundary, high);
      }
    }
  }

  lemma {:induction false} BetweenMembers(s: seq<real>, low: real, high: real)
    ensures forall x :: x in Between(s, low, high) ==> x in s && low < x <= high
  {
    if s != [] {
      var front, last := s[..|s| - 1], s[|s| - 1];
      Parts(s, front, last);
      BetweenMembers(front, low, high);
    }
  }

  lemma {:induction false} BetweenAscends(s: seq<real>, low: real, high: real)
    requires InOrder(s)
    ensures InOrder(Between(s, low, high))
  {
    if s != [] {
      var front, last := s[..|s| - 1], s[|s| - 1];
      BetweenAscends(front, low, high);
      BetweenMembers(front, low, high);
      if low < last <= high {
        AppendAscends(Between(front, low, high), last);
      } else {
        assert Between(s, low, high) == Between(front, low, high);
      }
    }
  }

  lemma AppendAscends(s: seq<real>, x: real)
    requires InOrder(s) && UpTo(s, x)
    ensures InOrder(s + [x]) && UpTo(s + [x], x)
  {
    var t := s + [x];
    assert t[..|t| - 1] == s;
    Parts(t, s, x);
  }

  lemma {:induction false} AdmittedAreRequests(limit: nat, window: real, times: seq<real>)
    requires times != [] && InOrder(times)
    ensures var a := RunKey(limit, window, times).admitted; InOrder(a) && UpTo(a, times[|times| - 1])
  {
    var front, now := times[..|times| - 1], times[|times| - 1];
    if front != [] {
      AdmittedAreRequests(limit, window, front);
      assert front[|front| - 1] in front;
    }
    AppendAscends(RunKey(limit, window, front).admitted, now);
  }

  lemma Slide(queue: seq<real>, admitted: seq<real>, low: real, later: real, before: real, now: real)
    requires low <= later && before <= now && queue == Between(admitted, low, before)
    requires InOrder(admitted) && UpTo(admitted, before)
    ensures Expire(queue, later) == Between(admitted, later, now)
  {
    BetweenAscends(admitted, low, before);
    BetweenMembers(admitted, low, before);
    ExpireFilters(queue, later, before);
    BetweenLater(admitted, low, later, before);
    RaiseTop(admitted, later, before, now);
  }

  /** The queue, once expired for the next request, is what was admitted in that request's window. */
  lemma {:induction false} ExpiredIsWindow(limit: nat, window: real, times: seq<real>, now: real)
    requires window > 0.0 && InOrder(times) && UpTo(times, now)
    ensures var s := RunKey(limit, window, times);
            Expire(s.queue, now - window) == Between(s.admitted, now - window, now)
    decreases |times|, 1
  {
    if times != [] {
      var last, s := times[|times| - 1], RunKey(limit, window, times);
      assert last in times;
      AdmittedAreRequests(limit, window, times);
      QueueIsWindow(limit, window, times);
      Slide(s.queue, s.admitted, last - window, now - window, last, now);
    }
  }

  /** For times that never decrease, the queue is what was admitted in the window of the last request. */
  lemma {:induction false} QueueIsWindow(limit: nat, window: real, times: seq<real>)
    requires window > 0.0 && InOrder(times) && times != []
    ensures var s, now := RunKey(limit, window, times), times[|times| - 1];
            s.queue == Between(s.admitted, now - window, now)
    decreases |times|, 0
  {
    var front, now := times[..|times| - 1], times[|times| - 1];
    ExpiredIsWindow(limit, window, front, now);
    BetweenAppend(RunKey(limit, window, front).admitted, now, now - window, now);
  }

  // ---- the limit ---------------------------------------------------------------------------

  lemma {:induction false} QueueWithinLimit(limit: nat, window: real, times: seq<real>)
    ensures |RunKey(limit, window, times).queue| <= limit
  {
    if times != [] { QueueWithinLimit(limit, window, times[..|times| - 1]); }
  }

  lemma {:induction false} ExpireKeepsLater(queue: seq<real>, boundary: real, low: real, high: real)
    requires boundary <= low
    ensures Between(Expire(queue, boundary), low, high) == Between(queue, low, high)
  {
    if |queue| > 0 && queue[0] <= boundary {
      ExpireKeepsLater(queue[1..], boundary, low, high);
      FilterTail(queue, low, high);
    }
  }

  lemma AppendBoth(a: seq<real>, b: seq<real>, x: real, low: real, high: real)
    requires Between(a, low, high) == Between(b, low, high)
    ensures Between(a + [x], low, high) == Between(b + [x], low, high)
  {
    BetweenAppend(a, x, low, high);
    BetweenAppend(b, x, low, high);
  }

  lemma PopsNothing(limit: nat, window: real, s: Window, now: real, low: real, high: real)
    requires now <= low + window && Between(s.admitted, low, high) == Between(s.queue, low, high)
    ensures var r := Admit(limit, window, s, now); Between(r.admitted, low, high) == Between(r.queue, low, high)
  {
    var kept := Expire(s.queue, now - window);
    ExpireKeepsLater(s.queue, now - window, low, high);
    if Admits(limit, window, s.queue, now) {
      AppendBoth(s.admitted, kept, now, low, high);
    }
  }

  /** What is later than `low` stays queued while no request comes a whole window after `low`. */
  lemma {:induction false} NothingPopped(limit: nat, window: real, times: seq<real>, low: real, high: real)
    requires UpTo(times, low + window)
    ensures var s := RunKey(limit, window, times); Between(s.admitted, low, high) == Between(s.queue, low, high)
  {
    if times != [] {
      var front, now := times[..|times| - 1], times[|times| - 1];
      Parts(times, front, now);
      NothingPopped(limit, window, front, low, high);
      PopsNothing(limit, window, RunKey(limit, window, front), now, low, high);
    }
  }

  lemma {:induction false} AtMostAll(s: seq<real>, low: real, high: real)
    ensures |Between(s, low, high)| <= |s|
  {
    if s != [] { AtMostAll(s[..|s| - 1], low, high); }
  }

  /** When requests come at most `d` late, a window shorter by `d` never holds more than `limit`
    * admissions: one of them is popped only by a request that nothing in the window can follow.
    */
  lemma {:induction false} ShorterWindowHolds(limit: nat, window: real, times: seq<real>, d: real, t: real)
    requires d >= 0.0 && LateBy(times, d)
    ensures |Between(RunKey(limit, window, times).admitted, t - (window - d), t)| <= limit
  {
    var low := t - (window - d);
    if times != [] {
      var front, now := times[..|times| - 1], times[|times| - 1];
      if now <= t {
        LateUpTo(times, d, t);
        NothingPopped(limit, window, times, low, t);
        QueueWithinLimit(limit, window, times);
        AtMostAll(RunKey(limit, window, times).queue, low, t);
      } else {
        ShorterWindowHolds(limit, window, front, d, t);
        LaterChangesNothing(limit, window, RunKey(limit, window, front), now, low, t);
      }
    }
  }

  lemma LateUpTo(times: seq<real>, d: real, t: real)
    requires times != [] && d >= 0.0 && LateBy(times, d) && times[|times| - 1] <= t
    ensures UpTo(times, t + d)
  {
    Parts(times, times[..|times| - 1], times[|times| - 1]);
  }

  lemma LaterChangesNothing(limit: nat, window: real, s: Window, now: real, low: real, t: real)
    requires now > t
    ensures Between(Admit(limit, window, s, now).admitted, low, t) == Between(s.admitted, low, t)
  {
    BetweenAppend(s.admitted, now, low, t);
  }

  /** For times that never decrease no window of the configured length holds more than `limit`. */
  lemma NeverOverLimit(limit: nat, window: real, times: seq<real>, t: real)
    requires InOrder(times)
    ensures |Between(RunKey(limit, window, times).admitted, t - window, t)| <= limit
  {
    assert t - (window - 0.0) == t - window;
    ShorterWindowHolds(limit, window, times, 0.0, t);
  }

  /** A request is refused exactly when its own window already holds `limit` admissions. */
  lemma RefusedExactlyWhenFull(limit: nat, window: real, times: seq<real>, now: real)
    requires window > 0.0 && InOrder(times) && UpTo(times, now)
    ensures var before := RunKey(limit, window, times);
            Admit(limit, window, before, now).admitted
            == if |Between(before.admitted, now - window, now)| == limit then before.admitted
                else before.admitted + [now]
  {
    ExpiredIsWindow(limit, window, times, now);
    QueueWithinLimit(limit, window, times);
  }

  /** Every admission is popped at most once, in whatever order the times come. */
  lemma {:induction false} PopsAreAdmissions(limit: nat, window: real, times: seq<real>)
    ensures var s := RunKey(limit, window, times); s.pops + |s.queue| == |s.admitted|
  {
    if times != [] { PopsAreAdmissions(limit, window, times[..|times| - 1]); }
  }

  lemma RunAppend(limit: nat, window: real, times: seq<real>, now: real)
    ensures RunKey(limit, window, times + [now]) == Admit(limit, window, RunKey(limit, window, times), now)
  {
    assert (times + [now])[..|times|] == times;
  }

  // ---- requests that come late ---------------------------------------------------------------

  /** Each admission lies a whole window after all before it. */
  ghost predicate Spaced(s: seq<real>, window: real) {
    s != [] ==> UpTo(s[..|s| - 1], s[|s| - 1] - window) && Spaced(s[..|s| - 1], window)
  }

  lemma {:induction false} NoneBetween(s: seq<real>, low: real, high: real)
    requires UpTo(s, low)
    ensures Between(s, low, high) == []
  {
    if s != [] {
      var front, last := s[..|s| - 1], s[|s| - 1];
      Parts(s, front, last);
      NoneBetween(front, low, high);
    }
  }

  lemma {:induction false} SpacedAtMostOne(s: seq<real>, window: real, t: real)
    requires Spaced(s, window)
    ensures |Between(s, t - window, t)| <= 1
  {
    if s != [] {
      var front, last := s[..|s| - 1], s[|s| - 1];
      if last <= t { NoneBetween(front, t - window, t); } else { SpacedAtMostOne(front, window, t); }
    }
  }

  lemma AppendSpaced(s: seq<real>, x: real, window: real)
    requires Spaced(s, window) && UpTo(s, x - window)
    ensures Spaced(s + [x], window)
  {
    assert (s + [x])[..|s + [x]| - 1] == s;
  }

  /** With a limit of one the queue is the last admission, which must be popped before the next. */
  lemma {:induction false} OneAtATime(window: real, times: seq<real>)
    requires window > 0.0
    ensures var s := RunKey(1, window, times);
            && Spaced(s.admitted, window)
            && (s.admitted == [] ==> s.queue == [])
            && (s.admitted != [] ==> s.queue == [s.admitted[|s.admitted| - 1]])
  {
    if times != [] {
      var front, now := times[..|times| - 1], times[|times| - 1];
      var s := RunKey(1, window, front);
      OneAtATime(window, front);
      if s.admitted == [] {
        AppendSpaced([], now, window);
      } else {
        var last := s.admitted[|s.admitted| - 1];
        Parts(s.admitted, s.admitted[..|s.admitted| - 1], last);
        assert s.queue[1..] == [];
        if last <= now - window { AppendSpaced(s.admitted, now, window); }
      }
    }
  }

  lemma {:induction false} NothingAtZero(window: real, times: seq<real>)
    ensures RunKey(0, window, times).admitted == []
  {
    if times != [] { NothingAtZero(window, times[..|times| - 1]); }
  }

  /** So with a limit of at most one the order of the times does not matter. */
  lemma OneIsNeverOverfilled(limit: nat, window: real, times: seq<real>, t: real)
    requires limit <= 1 && window > 0.0
    ensures |Between(RunKey(limit, window, times).admitted, t - window, t)| <= limit
  {
    if limit == 0 { ZeroHolds(limit, window, times, t); } else { OneHolds(limit, window, times, t); }
  }

  lemma ZeroHolds(limit: nat, window: real, times: seq<real>, t: real)
    requires limit == 0
    ensures |Between(RunKey(limit, window, times).admitted, t - window, t)| <= limit
  {
    NothingAtZero(window, times);
  }

  lemma OneHolds(limit: nat, window: real, times: seq<real>, t: real)
    requires limit == 1 && window > 0.0
    ensures |Between(RunKey(limit, window, times).admitted, t - window, t)| <= limit
  {
    OneAtATime(window, times);
    var admitted := RunKey(1, window, times).admitted;
    SpacedAtMostOne(admitted, window, t);
  }

  function Zeros(n: nat): seq<real> {
    if n == 0 then [] else Zeros(n - 1) + [0.0]
  }

  /** A full window at zero, a request that pops it, and one that comes `e` late. */
  function Overfilling(limit: nat, window: real, e: real): seq<real> {
    Zeros(limit) + [window] + [window - e]
  }

  lemma {:induction false} ZerosAreZero(n: nat)
    ensures |Zeros(n)| == n && forall x :: x in Zeros(n) ==> x == 0.0
  {
    if n > 0 { ZerosAreZero(n - 1); }
  }

  lemma {:induction false} ZerosAdmitted(limit: nat, window: real, zeros: seq<real>)
    requires |zeros| <= limit && window > 0.0 && forall x :: x in zeros ==> x == 0.0
    ensures RunKey(limit, window, zeros) == Window(zeros, zeros, 0)
  {
    if zeros != [] {
      var front := zeros[..|zeros| - 1];
      Parts(zeros, front, zeros[|zeros| - 1]);
      ZerosAdmitted(limit, window, front);
      AnotherZero(limit, window, front);
    }
  }

  lemma AnotherZero(limit: nat, window: real, zeros: seq<real>)
    requires |zeros| < limit && window > 0.0 && forall x :: x in zeros ==> x == 0.0
    ensures Admit(limit, window, Window(zeros, zeros, 0), 0.0) == Window(zeros + [0.0], zeros + [0.0], 0)
  {
    KeptWhole(zeros, 0.0 - window);
  }

  lemma KeptWhole(queue: seq<real>, boundary: real)
    requires forall x :: x in queue ==> x > boundary
    ensures Expire(queue, boundary) == queue
  {
    if |queue| > 0 { assert queue[0] in queue; }
  }

  lemma {:induction false} PoppedWhole(queue: seq<real>, boundary: real)
    requires UpTo(queue, boundary)
    ensures Expire(queue, boundary) == []
  {
    if |queue| > 0 {
      assert queue[0] in queue;
      InTail(queue, queue[1..]);
      PoppedWhole(queue[1..], boundary);
    }
  }

  lemma {:induction false} ZerosLateBy(n: nat, d: real)
    requires d >= 0.0
    ensures LateBy(Zeros(n), d)
  {
    if n > 0 {
      ZerosLateBy(n - 1, d);
      ZerosAreZero(n - 1);
      AppendLateBy(Zeros(n - 1), 0.0, d);
    }
  }

  lemma AppendLateBy(s: seq<real>, x: real, d: real)
    requires LateBy(s, d) && UpTo(s, x + d)
    ensures LateBy(s + [x], d)
  {
    assert (s + [x])[..|s + [x]| - 1] == s;
  }

  lemma OverfillingIsLate(limit: nat, window: real, e: real, d: real)
    requires 0.0 < e < window && e <= d
    ensures LateBy(Overfilling(limit, window, e), d)
  {
    var zeros := Zeros(limit);
    ZerosAreZero(limit);
    ZerosLateBy(limit, d);
    AppendLateBy(zeros, window, d);
    AppendLateBy(zeros + [window], window - e, d);
  }

  lemma OverfillingRun(limit: nat, window: real, e: real)
    requires limit >= 2 && 0.0 < e < window
    ensures RunKey(limit, window, Overfilling(limit, window, e)).admitted == Overfilling(limit, window, e)
  {
    var zeros := Zeros(limit);
    ZerosAreZero(limit);
    ZerosAdmitted(limit, window, zeros);
    RunAppend(limit, window, zeros, window);
    PoppedWhole(zeros, 0.0);
    assert RunKey(limit, window, zeros + [window]).queue == [] + [window] == [window];
    RunAppend(limit, window, zeros + [window], window - e);
    KeptWhole([window], window - e - window);
  }

  lemma OverfillingOverfills(limit: nat, window: real, e: real)
    requires limit >= 2 && 0.0 < e < window
    ensures var t := window - e;
            |Between(RunKey(limit, window, Overfilling(limit, window, e)).admitted, t - window, t)| == limit + 1
  {
    var zeros, t, low := Zeros(limit), window - e, -e;
    OverfillingRun(limit, window, e);
    ZerosAreZero(limit);
    FilterAll(zeros, low, t);
    BetweenAppend(zeros, window, low, t);
    BetweenAppend(zeros + [window], t, low, t);
    assert t - window == low && Keep(window, low, t) == [] && Keep(t, low, t) == [t];
  }

  /** How many admissions lie in the window that ends at `t`. */
  function InWindow(limit: nat, window: real, times: seq<real>, t: real): nat {
    |Between(RunKey(limit, window, times).admitted, t - window, t)|
  }

  /** The time is read before the lock is taken, so requests can come late. The limit holds on all runs
    * late by at most `d` exactly when none is late or the limit is at most one.
    */
  lemma LimitHoldsExactly(limit: nat, window: real, d: real)
    requires window > 0.0 && d >= 0.0
    ensures (forall times, t :: LateBy(times, d) ==> InWindow(limit, window, times, t) <= limit)
            <==> limit <= 1 || d == 0.0
  {
    if limit <= 1 || d == 0.0 {
      forall times, t | LateBy(times, d) ensures InWindow(limit, window, times, t) <= limit {
        if d == 0.0 { NeverOverLimit(limit, window, times, t); } else { OneIsNeverOverfilled(limit, window, times, t); }
      }
    } else {
      var e := if d <= window / 2.0 then d else window / 2.0;
      OverfillingIsLate(limit, window, e, d);
      OverfillingOverfills(limit, window, e);
      assert InWindow(limit, window, Overfilling(limit, window, e), window - e) > limit;
    }
  }

  /** Four requests, the last two seconds late: it finds the admissions of its window already popped. */
  lemma LatecomerOverfills()
    ensures var s := RunKey(2, 5.0, [0.0] + [0.5] + [6.0] + [4.0]); |Between(s.admitted, -1.0, 4.0)| == 3
  {
    var s := Window([], [], 0);
    assert [] + [0.0] == [0.0];
    RunAppend(2, 5.0, [], 0.0);
    RunAppend(2, 5.0, [0.0], 0.5);
    RunAppend(2, 5.0, [0.0] + [0.5], 6.0);
    RunAppend(2, 5.0, [0.0] + [0.5] + [6.0], 4.0);
    assert RunKey(2, 5.0, [0.0] + [0.5]) == Window([0.0] + [0.5], [0.0] + [0.5], 0);
    BothExpire();
    assert RunKey(2, 5.0, [0.0] + [0.5] + [6.0]) == Window([6.0], [0.0] + [0.5] + [6.0], 2);
    BetweenAppend([], 0.0, -1.0, 4.0);
    BetweenAppend([0.0], 0.5, -1.0, 4.0);
    BetweenAppend([0.0] + [0.5], 6.0, -1.0, 4.0);
    BetweenAppend([0.0] + [0.5] + [6.0], 4.0, -1.0, 4.0);
  }

  lemma BothExpire()
    ensures Expire([0.0] + [0.5], 1.0) == []
  {
    assert ([0.0] + [0.5])[1..] == [0.5] && [0.5][1..] == [];
  }

  // ---- all keys ----------------------------------------------------------------------------

  datatype Request = Request(key: string, at: real)

  function Get(m: map<string, Window>, key: string): Window {
    if key in m then m[key] else Window([], [], 0)
  }

  function RunAll(limit: nat, window: real, requests: seq<Request>): map<string, Window> {
    if requests == [] then map[]
    else
      var m, r := RunAll(limit, window, requests[..|requests| - 1]), requests[|requests| - 1];
      m[r.key := Admit(limit, window, Get(m, r.key), r.at)]
  }

  function TimesOf(requests: seq<Request>, key: string): seq<real> {
    if requests == [] then []
    else
      var earlier, r := TimesOf(requests[..|requests| - 1], key), requests[|requests| - 1];
      if r.key == key then earlier + [r.at] else earlier
  }

  /** Keys never influence each other. */
  lemma {:induction false} KeysAreIndependent(limit: nat, window: real, requests: seq<Request>, key: string)
    ensures Get(RunAll(limit, window, requests), key) == RunKey(limit, window, TimesOf(requests, key))
  {
    if requests != [] {
      var front, r := requests[..|requests| - 1], requests[|requests| - 1];
      KeysAreIndependent(limit, window, front, key);
      if r.key == key { RunAppend(limit, window, TimesOf(front, key), r.at); }
    }
  }

  /** So interleaved requests of many keys are limited key by key. */
  lemma LimitHoldsPerKey(limit: nat, window: real, requests: seq<Request>, key: string, d: real, t: real)
    requires d >= 0.0 && LateBy(TimesOf(requests, key), d)
    ensures |Between(Get(RunAll(limit, window, requests), key).admitted, t - (window - d), t)| <= limit
  {
    KeysAreIndependent(limit, window, requests, key);
    ShorterWindowHolds(limit, window, TimesOf(requests, key), d, t);
  }

  // ---- the limiter -------------------------------------------------------------------------

  class SlidingWindowRateLimiter {
    const limit: nat
    const window: real
    var requests: map<string, seq<real>>

    constructor (limit: nat, window: real)
      requires limit >= 1 && window > 0.0
      ensures this.limit == limit && this.window == window && requests == map[]
    {
      this.limit, this.window, requests := limit, window, map[];
    }

    function Queue(key: string): seq<real>
      reads this
    {
      if key in requests then requests[key] else []
    }

    method Allow(key: string, now: real) returns (ok: bool)
      modifies this`requests
      ensures ok == Admits(limit, window, old(Queue(key)), now)
      ensures requests == old(requests)[key := Queued(limit, window, old(Queue(key)), now)]
    {
      var boundary := now - window;
      var timestamps := Queue(key);
      while |timestamps| > 0 && timestamps[0] <= boundary
        invariant Expire(timestamps, boundary) == Expire(old(Queue(key)), boundary)
      {
        timestamps := timestamps[1..];
      }
      ok := |timestamps| < limit;
      if ok { timestamps := timestamps + [now]; }
      requests := requests[key := timestamps];
    }
  }
}
