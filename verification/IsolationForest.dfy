/** The isolation forest: random partition trees over one metric, and the path a value takes through them.
  * The random generator is an arbitrary function of its state; `log` and `exp2` stand for the library
  * functions.
  */
module IsolationForest {
  import opened RealAlgebra

  datatype Tree = Leaf(size: nat) | Node(size: nat, split: real, left: Tree, right: Tree)

  datatype Detection = Detection(anomalous: bool, score: real)

  // ---- samples -----------------------------------------------------------------------------

  function Minimum(s: seq<real>): (m: real)
    requires |s| > 0
    ensures m in s && forall x :: x in s ==> m <= x
  {
    if |s| == 1 then s[0]
    else
      assert s == [s[0]] + s[1..];
      var m := Minimum(s[1..]);
      if s[0] < m then s[0] else m
  }

  function Maximum(s: seq<real>): (m: real)
    requires |s| > 0
    ensures m in s && forall x :: x in s ==> x <= m
  {
    if |s| == 1 then s[0]
    else
      assert s == [s[0]] + s[1..];
      var m := Maximum(s[1..]);
      if s[0] > m then s[0] else m
  }

  /** The samples on one side of a split, in order. */
  function Side(s: seq<real>, split: real, below: bool): (r: seq<real>)
    ensures forall x :: x in r <==> x in s && (x < split) == below
    ensures |r| <= |s|
  {
    if |s| == 0 then [] else (if (s[0] < split) == below then [s[0]] else []) + Side(s[1..], split, below)
  }

  lemma {:induction false} SidesAreAll(s: seq<real>, split: real)
    ensures |Side(s, split, true)| + |Side(s, split, false)| == |s|
  {
    if |s| > 0 { SidesAreAll(s[1..], split); }
  }

  // ---- the random generator ----------------------------------------------------------------

  /** A generator started from a fixed seed: each draw is determined by its state, which it changes. */
  datatype Source = Source(
    seeded: nat,
    uniform: (nat, real, real) -> (real, nat),
    sample: (nat, seq<real>, nat) -> (seq<real>, nat))

  ghost predicate Drawn(history: seq<real>, n: nat, s: seq<real>) {
    |s| == n && multiset(s) <= multiset(history)
  }

  /** Uniform draws stay within their bounds, and samples are drawn without replacement. */
  ghost predicate Lawful(source: Source) {
    && (forall st, low, high :: low <= high ==> low <= source.uniform(st, low, high).0 <= high)
    && (forall st, s, n: nat :: n <= |s| ==> Drawn(s, n, source.sample(st, s, n).0))
  }

  class Random {
    const source: Source
    var state: nat

    constructor (source: Source)
      ensures this.source == source && state == source.seeded
    {
      this.source, state := source, source.seeded;
    }

    method Uniform(low: real, high: real) returns (x: real)
      modifies this
      ensures (x, state) == source.uniform(old(state), low, high)
      ensures Lawful(source) && low <= high ==> low <= x <= high
    {
      var (value, next) := source.uniform(state, low, high);
      x, state := value, next;
    }

    method Sample(history: seq<real>, n: nat) returns (s: seq<real>)
      modifies this
      ensures (s, state) == source.sample(old(state), history, n)
      ensures Lawful(source) && n <= |history| ==> Drawn(history, n, s)
    {
      var (value, next) := source.sample(state, history, n);
      s, state := value, next;
    }
  }

  // ---- building a tree ---------------------------------------------------------------------

  /** The trees a build can end with. A leaf is always one of them: a split drawn at the minimum leaves
    * nothing below it, and the build then stops.
    */
  ghost predicate Built(s: seq<real>, depth: nat, maximumDepth: nat, t: Tree)
    decreases t
  {
    && |s| > 0
    && t.size == |s|
    && (t.Node? ==>
          && depth < maximumDepth
          && Minimum(s) < t.split <= Maximum(s)
          && Built(Side(s, t.split, true), depth + 1, maximumDepth, t.left)
          && Built(Side(s, t.split, false), depth + 1, maximumDepth, t.right))
  }

  /** The tree the generator builds from a state, and the state it leaves. */
  function Grow(source: Source, st: nat, s: seq<real>, depth: nat, maximumDepth: nat): (Tree, nat)
    requires |s| > 0
    decreases maximumDepth - depth
  {
    if depth >= maximumDepth || |s| <= 1 || Minimum(s) == Maximum(s) then (Leaf(|s|), st)
    else
      var (split, afterSplit) := source.uniform(st, Minimum(s), Maximum(s));
      var below, above := Side(s, split, true), Side(s, split, false);
      if below == [] || above == [] then (Leaf(|s|), afterSplit)
      else
        var (left, afterLeft) := Grow(source, afterSplit, below, depth + 1, maximumDepth);
        var (right, afterRight) := Grow(source, afterLeft, above, depth + 1, maximumDepth);
        (Node(|s|, split, left, right), afterRight)
  }

  /** Whatever the draws, the tree is one a build can end with, and a build stops where it must. */
  lemma {:induction false} GrownIsBuilt(source: Source, st: nat, s: seq<real>, depth: nat, maximumDepth: nat)
    requires |s| > 0 && Lawful(source)
    ensures Built(s, depth, maximumDepth, Grow(source, st, s, depth, maximumDepth).0)
    ensures depth >= maximumDepth || |s| == 1 || Minimum(s) == Maximum(s) ==>
            Grow(source, st, s, depth, maximumDepth).0 == Leaf(|s|)
    decreases maximumDepth - depth
  {
    if depth < maximumDepth && |s| > 1 && Minimum(s) != Maximum(s) {
      var (split, afterSplit) := source.uniform(st, Minimum(s), Maximum(s));
      var below, above := Side(s, split, true), Side(s, split, false);
      if below != [] && above != [] {
        assert below[0] in below && above[0] in above;
        GrownIsBuilt(source, afterSplit, below, depth + 1, maximumDepth);
        GrownIsBuilt(source, Grow(source, afterSplit, below, depth + 1, maximumDepth).1, above, depth + 1,
                     maximumDepth);
      }
    }
  }

  /** Where a split may be drawn, the tree splits exactly there, unless the draw is the minimum itself. */
  lemma SplitsExactlyAbove(source: Source, st: nat, s: seq<real>, depth: nat, maximumDepth: nat)
    requires |s| > 1 && depth < maximumDepth && Minimum(s) < Maximum(s) && Lawful(source)
    ensures var t, draw := Grow(source, st, s, depth, maximumDepth).0, source.uniform(st, Minimum(s), Maximum(s)).0;
            && (t.Node? <==> draw > Minimum(s))
            && (t.Node? ==> t.split == draw)
  {
    var draw := source.uniform(st, Minimum(s), Maximum(s)).0;
    var below, above := Side(s, draw, true), Side(s, draw, false);
    assert Maximum(s) in above;
    if draw > Minimum(s) { assert Minimum(s) in below; }
    if below != [] { assert below[0] in below; }
  }

  method BuildTree(random: Random, s: seq<real>, depth: nat, maximumDepth: nat) returns (t: Tree)
    requires |s| > 0
    modifies random
    ensures (t, random.state) == Grow(random.source, old(random.state), s, depth, maximumDepth)
    decreases maximumDepth - depth
  {
    var minimum, maximum := Minimum(s), Maximum(s);
    if depth >= maximumDepth || |s| <= 1 || minimum == maximum { return Leaf(|s|); }
    var split := random.Uniform(minimum, maximum);
    var below, above := Side(s, split, true), Side(s, split, false);
    if below == [] || above == [] { return Leaf(|s|); }
    var left := BuildTree(random, below, depth + 1, maximumDepth);
    var right := BuildTree(random, above, depth + 1, maximumDepth);
    t := Node(|s|, split, left, right);
  }

  // ---- the path of a value -----------------------------------------------------------------

  /** The estimated depth of an unsuccessful search among `n` values. */
  function UnsuccessfulPath(log: real -> real, n: nat): real {
    if n <= 1 then 0.0
    else if n == 2 then 1.0
    else 2.0 * (log((n - 1) as real) + 0.5772156649015329) - 2.0 * (n - 1) as real / n as real
  }

  function PathLength(log: real -> real, v: real, t: Tree, depth: nat): real
    decreases t
  {
    if t.Leaf? then depth as real + UnsuccessfulPath(log, t.size)
    else PathLength(log, v, if v < t.split then t.left else t.right, depth + 1)
  }

  function Height(t: Tree): nat {
    if t.Leaf? then 0
    else
      var l, r := Height(t.left), Height(t.right);
      1 + if l < r then r else l
  }

  function LeafTotal(t: Tree): nat {
    if t.Leaf? then t.size else LeafTotal(t.left) + LeafTotal(t.right)
  }

  function Splits(t: Tree): set<real> {
    if t.Leaf? then {} else {t.split} + Splits(t.left) + Splits(t.right)
  }

  /** Left turns on the way from the root to the leaf. */
  function Route(t: Tree, v: real): seq<bool> {
    if t.Leaf? then [] else [v < t.split] + Route(if v < t.split then t.left else t.right, v)
  }

  function LeafSize(t: Tree, v: real): nat {
    if t.Leaf? then t.size else LeafSize(if v < t.split then t.left else t.right, v)
  }

  /** No leaf loses or gains a sample, and the depth limit bounds the height. */
  lemma {:induction false} SizesAddUp(s: seq<real>, depth: nat, maximumDepth: nat, t: Tree)
    requires Built(s, depth, maximumDepth, t)
    ensures LeafTotal(t) == |s|
    ensures Height(t) <= if depth < maximumDepth then maximumDepth - depth else 0
    decreases t
  {
    if t.Node? {
      var below, above := Side(s, t.split, true), Side(s, t.split, false);
      SidesAreAll(s, t.split);
      SizesAddUp(below, depth + 1, maximumDepth, t.left);
      SizesAddUp(above, depth + 1, maximumDepth, t.right);
      assert |below| + |above| == |s|;
    }
  }

  /** Every split lies above the smallest sample and not above the largest. */
  lemma {:induction false} SplitsWithinSamples(s: seq<real>, depth: nat, maximumDepth: nat, t: Tree, x: real)
    requires Built(s, depth, maximumDepth, t) && x in Splits(t)
    ensures Minimum(s) < x <= Maximum(s)
    decreases t
  {
    if x != t.split {
      var below, above := Side(s, t.split, true), Side(s, t.split, false);
      if x in Splits(t.left) {
        SplitsWithinSamples(below, depth + 1, maximumDepth, t.left, x);
        assert Minimum(below) in s && Maximum(below) in s;
      } else {
        SplitsWithinSamples(above, depth + 1, maximumDepth, t.right, x);
        assert Minimum(above) in s && Maximum(above) in s;
      }
    }
  }

  function Sharing(s: seq<real>, t: Tree, route: seq<bool>): nat {
    if |s| == 0 then 0 else (if Route(t, s[0]) == route then 1 else 0) + Sharing(s[1..], t, route)
  }

  lemma {:induction false} SharingBelow(s: seq<real>, t: Tree, below: bool, route: seq<bool>)
    requires t.Node?
    ensures Sharing(s, t, [below] + route) == Sharing(Side(s, t.split, below), if below then t.left else t.right, route)
  {
    if |s| > 0 {
      SharingBelow(s[1..], t, below, route);
      var child := if s[0] < t.split then t.left else t.right;
      assert Route(t, s[0])[0] == (s[0] < t.split) && Route(t, s[0])[1..] == Route(child, s[0]);
      assert ([below] + route)[0] == below && ([below] + route)[1..] == route;
      if (s[0] < t.split) == below {
        assert Side(s, t.split, below)[1..] == Side(s[1..], t.split, below);
      } else {
        assert Side(s, t.split, below) == Side(s[1..], t.split, below);
      }
    }
  }

  /** The leaf a value falls into is as large as the number of samples that fall into it. */
  lemma {:induction false} LeafCountsItsSamples(s: seq<real>, depth: nat, maximumDepth: nat, t: Tree, v: real)
    requires Built(s, depth, maximumDepth, t)
    ensures LeafSize(t, v) == Sharing(s, t, Route(t, v))
    decreases t
  {
    if t.Leaf? {
      AllShareLeaf(s, t);
    } else {
      var below := v < t.split;
      var child := if below then t.left else t.right;
      LeafCountsItsSamples(Side(s, t.split, below), depth + 1, maximumDepth, child, v);
      SharingBelow(s, t, below, Route(child, v));
    }
  }

  lemma {:induction false} AllShareLeaf(s: seq<real>, t: Tree)
    requires t.Leaf?
    ensures Sharing(s, t, []) == |s|
  {
    if |s| > 0 { AllShareLeaf(s[1..], t); }
  }

  /** The path of a value depends only on which splits lie above it. */
  lemma {:induction false} PathDependsOnPosition(log: real -> real, v: real, w: real, t: Tree, depth: nat)
    requires forall x :: x in Splits(t) ==> (v < x <==> w < x)
    ensures PathLength(log, v, t, depth) == PathLength(log, w, t, depth)
    ensures Route(t, v) == Route(t, w)
    decreases t
  {
    if t.Node? {
      assert t.split in Splits(t);
      PathDependsOnPosition(log, v, w, if v < t.split then t.left else t.right, depth + 1);
    }
  }

  /** So a tree cannot tell values beyond its samples from the nearest sample. */
  lemma BeyondSamples(log: real -> real, s: seq<real>, depth: nat, maximumDepth: nat, t: Tree, v: real)
    requires Built(s, depth, maximumDepth, t)
    ensures v >= Maximum(s) ==> PathLength(log, v, t, depth) == PathLength(log, Maximum(s), t, depth)
    ensures v <= Minimum(s) ==> PathLength(log, v, t, depth) == PathLength(log, Minimum(s), t, depth)
  {
    forall x | x in Splits(t) ensures Minimum(s) < x <= Maximum(s) {
      SplitsWithinSamples(s, depth, maximumDepth, t, x);
    }
    if v >= Maximum(s) { PathDependsOnPosition(log, v, Maximum(s), t, depth); }
    if v <= Minimum(s) { PathDependsOnPosition(log, v, Minimum(s), t, depth); }
  }

  // ---- the detector ------------------------------------------------------------------------

  lemma {:induction false} RouteWithinHeight(t: Tree, v: real)
    ensures |Route(t, v)| <= Height(t)
    decreases t
  {
    if t.Node? {
      RouteWithinHeight(t.left, v);
      RouteWithinHeight(t.right, v);
    }
  }

  /** No way down is longer than the depth that is left. */
  lemma RoutesKeepDepth(s: seq<real>, depth: nat, maximumDepth: nat, t: Tree, v: real)
    requires Built(s, depth, maximumDepth, t)
    ensures |Route(t, v)| <= if depth < maximumDepth then maximumDepth - depth else 0
  {
    RouteWithinHeight(t, v);
    SizesAddUp(s, depth, maximumDepth, t);
  }

  /** The least depth at which a binary tree has room for `n` leaves, as the rounded-up logarithm gives it. */
  function DepthFor(n: nat): (d: nat)
    requires n >= 1
    ensures n <= Pow2(d) && (d > 0 ==> Pow2(d - 1) < n)
  {
    LeastPower(n, 0)
  }

  function Pow2(d: nat): nat {
    if d == 0 then 1 else 2 * Pow2(d - 1)
  }

  lemma {:induction false} Pow2IsProduct(d: nat, e: nat)
    ensures Pow2(0) == 1 && Pow2(1) == 2 && Pow2(d + e) == Pow2(d) * Pow2(e)
    decreases e
  {
    if e > 0 {
      Pow2IsProduct(d, e - 1);
      assert Pow2(d + e) == 2 * Pow2(d + e - 1);
    }
  }

  /** The depths for small samples, and for the usual one. */
  lemma DepthsAreSpelled()
    ensures DepthFor(1) == 0 && DepthFor(2) == 1 && DepthFor(3) == 2 && DepthFor(4) == 2 && DepthFor(5) == 3
    ensures DepthFor(256) == 8 && DepthFor(257) == 9
  {
    assert Pow2(2) == 4 && Pow2(3) == 8 && Pow2(4) == 16;
    assert Pow2(8) == 16 * Pow2(4);
    PowersGrow();
  }

  lemma PowersGrow()
    ensures forall a: nat, b: nat :: a <= b ==> Pow2(a) <= Pow2(b)
  {
    forall a: nat, b: nat | a <= b ensures Pow2(a) <= Pow2(b) { PowerGrows(a, b); }
  }

  lemma {:induction false} PowerGrows(a: nat, b: nat)
    requires a <= b
    ensures Pow2(a) <= Pow2(b)
  {
    if a < b { PowerGrows(a, b - 1); }
  }

  lemma {:induction false} Pow2Grows(d: nat)
    ensures d < Pow2(d)
  {
    if d > 0 { Pow2Grows(d - 1); }
  }

  function LeastPower(n: nat, d: nat): (r: nat)
    requires d > 0 ==> Pow2(d - 1) < n
    ensures n <= Pow2(r) && (r > 0 ==> Pow2(r - 1) < n)
    decreases n - d
  {
    Pow2Grows(d);
    if n <= Pow2(d) then d else LeastPower(n, d + 1)
  }

  /** Trees grown from samples of `n` values of the history, drawn without replacement. */
  ghost predicate Grown(history: seq<real>, n: nat, forest: seq<Tree>)
    requires n >= 1
  {
    forall i :: 0 <= i < |forest| ==> exists s :: Drawn(history, n, s) && Built(s, 0, DepthFor(n), forest[i])
  }

  function Total(log: real -> real, v: real, forest: seq<Tree>): real {
    if forest == [] then 0.0
    else Total(log, v, forest[..|forest| - 1]) + PathLength(log, v, forest[|forest| - 1], 0)
  }

  /** The answer for paths of the given total length in `count` trees. */
  function Judge(log: real -> real, exp2: real -> real, threshold: real, n: nat, total: real, count: nat): Detection
    requires count > 0
  {
    var average := total / count as real;
    var normalization := UnsuccessfulPath(log, n);
    var score := if normalization > 0.0 then exp2(-average / normalization) else 0.0;
    Detection(score >= threshold, score)
  }

  function Verdict(log: real -> real, exp2: real -> real, threshold: real, n: nat, forest: seq<Tree>, v: real)
    : Detection
    requires |forest| > 0
  {
    Judge(log, exp2, threshold, n, Total(log, v, forest), |forest|)
  }

  /** The first `k` trees of a detection and the state the generator is left in. */
  function Forest(source: Source, history: seq<real>, n: nat, k: nat): (seq<Tree>, nat)
    requires 1 <= n <= |history| && Lawful(source)
  {
    if k == 0 then ([], source.seeded)
    else
      var (forest, st) := Forest(source, history, n, k - 1);
      var (s, afterSample) := source.sample(st, history, n);
      var (tree, afterTree) := Grow(source, afterSample, s, 0, DepthFor(n));
      (forest + [tree], afterTree)
  }

  lemma {:induction false} ForestIsGrown(source: Source, history: seq<real>, n: nat, k: nat)
    requires 1 <= n <= |history| && Lawful(source)
    ensures var forest := Forest(source, history, n, k).0; |forest| == k && Grown(history, n, forest)
  {
    if k > 0 {
      ForestIsGrown(source, history, n, k - 1);
      var (forest, st) := Forest(source, history, n, k - 1);
      var s, tree := GrownTree(source, st, history, n);
      OneMoreGrown(history, n, forest, s, tree);
    }
  }

  lemma GrownTree(source: Source, st: nat, history: seq<real>, n: nat) returns (s: seq<real>, tree: Tree)
    requires 1 <= n <= |history| && Lawful(source)
    ensures s == source.sample(st, history, n).0 && |s| > 0
    ensures tree == Grow(source, source.sample(st, history, n).1, s, 0, DepthFor(n)).0
    ensures Drawn(history, n, s) && Built(s, 0, DepthFor(n), tree)
  {
    s := source.sample(st, history, n).0;
    tree := Grow(source, source.sample(st, history, n).1, s, 0, DepthFor(n)).0;
    GrownIsBuilt(source, source.sample(st, history, n).1, s, 0, DepthFor(n));
  }

  lemma OneMoreGrown(history: seq<real>, n: nat, forest: seq<Tree>, s: seq<real>, tree: Tree)
    requires n >= 1 && Grown(history, n, forest) && Drawn(history, n, s) && Built(s, 0, DepthFor(n), tree)
    ensures Grown(history, n, forest + [tree])
  {
  }

  function SampleSize(sampleSize: nat, history: seq<real>): nat {
    if |history| < sampleSize then |history| else sampleSize
  }

  /** The answer of the detector: a function of its settings, the history and the value. */
  function Detected(source: Source, log: real -> real, exp2: real -> real, treeCount: nat, sampleSize: nat,
                    threshold: real, history: seq<real>, v: real): Detection
    requires treeCount >= 1 && sampleSize >= 4 && Lawful(source)
  {
    if |history| < 8 then Detection(false, 0.0)
    else
      var n := SampleSize(sampleSize, history);
      ForestIsGrown(source, history, n, treeCount);
      Verdict(log, exp2, threshold, n, Forest(source, history, n, treeCount).0, v)
  }

  lemma TotalStep(log: real -> real, v: real, forest: seq<Tree>, tree: Tree)
    ensures Total(log, v, forest + [tree]) == Total(log, v, forest) + PathLength(log, v, tree, 0)
  {
    assert (forest + [tree])[..|forest|] == forest;
  }

  /** The detector's loop: sample, grow, and follow the value down, tree after tree. */
  method Paths(source: Source, log: real -> real, treeCount: nat, n: nat, history: seq<real>, current: real)
    returns (paths: seq<real>, sum: real)
    requires 1 <= n <= |history| && Lawful(source)
    ensures |paths| == treeCount && sum == Total(log, current, Forest(source, history, n, treeCount).0)
  {
    var maximumDepth := DepthFor(n);
    var random := new Random(source);
    paths, sum := [], 0.0;
    for i := 0 to treeCount
      invariant |paths| == i && random.source == source && random.state == Forest(source, history, n, i).1
      invariant sum == Total(log, current, Forest(source, history, n, i).0)
    {
      var samples := random.Sample(history, n);
      var tree := BuildTree(random, samples, 0, maximumDepth);
      var path := PathLength(log, current, tree, 0);
      TotalStep(log, current, Forest(source, history, n, i).0, tree);
      paths := paths + [path];
      sum := sum + path;
    }
  }

  method Detect(source: Source, log: real -> real, exp2: real -> real, treeCount: nat, sampleSize: nat, threshold: real,
                history: seq<real>, current: real)
    returns (r: Detection)
    requires treeCount >= 1 && sampleSize >= 4 && 0.0 < threshold < 1.0 && Lawful(source)
    ensures r == Detected(source, log, exp2, treeCount, sampleSize, threshold, history, current)
    ensures r.anomalous <==> |history| >= 8 && r.score >= threshold
    ensures |history| < 8 ==> r.score == 0.0
    ensures |history| >= 8 ==>
              var n := if sampleSize <= |history| then sampleSize else |history|;
              r == Verdict(log, exp2, threshold, n, Forest(source, history, n, treeCount).0, current)
  {
    if |history| < 8 { return Detection(false, 0.0); }
    var n := SampleSize(sampleSize, history);
    var paths, sum := Paths(source, log, treeCount, n, history, current);
    ForestIsGrown(source, history, n, treeCount);
    r := Judge(log, exp2, threshold, n, sum, |paths|);
  }

  /** However far a value lies beyond the history, its verdict is that of the nearest recorded extreme. */
  lemma {:induction false} TotalBeyondHistory(log: real -> real, history: seq<real>, n: nat, forest: seq<Tree>, v: real,
                                              w: real)
    requires n >= 1 && |history| > 0 && Grown(history, n, forest)
    requires (v >= Maximum(history) && w >= Maximum(history)) || (v <= Minimum(history) && w <= Minimum(history))
    ensures Total(log, v, forest) == Total(log, w, forest)
  {
    if forest != [] {
      var t := forest[|forest| - 1];
      var s :| Drawn(history, n, s) && Built(s, 0, DepthFor(n), t);
      WithinHistory(history, n, s);
      BeyondSamples(log, s, 0, DepthFor(n), t, v);
      BeyondSamples(log, s, 0, DepthFor(n), t, w);
      TotalBeyondHistory(log, history, n, forest[..|forest| - 1], v, w);
    }
  }

  lemma WithinHistory(history: seq<real>, n: nat, s: seq<real>)
    requires Drawn(history, n, s) && n >= 1 && |history| > 0
    ensures Minimum(history) <= Minimum(s) && Maximum(s) <= Maximum(history)
  {
    assert Minimum(s) in multiset(s) && Maximum(s) in multiset(s);
    assert Minimum(s) in history && Maximum(s) in history;
  }

  lemma ExtremesScoreAlike(log: real -> real, exp2: real -> real, threshold: real, history: seq<real>, n: nat,
                           forest: seq<Tree>, v: real, w: real)
    requires n >= 1 && |history| > 0 && |forest| > 0 && Grown(history, n, forest)
    requires (v >= Maximum(history) && w >= Maximum(history)) || (v <= Minimum(history) && w <= Minimum(history))
    ensures Verdict(log, exp2, threshold, n, forest, v) == Verdict(log, exp2, threshold, n, forest, w)
  {
    TotalBeyondHistory(log, history, n, forest, v, w);
  }

  /** So the detector gives one answer for all values from the largest of the history up, and one for
    * all from the smallest down: beyond what it has seen it cannot tell far from near.
    */
  lemma DetectSaturates(source: Source, log: real -> real, exp2: real -> real, treeCount: nat, sampleSize: nat,
                        threshold: real, history: seq<real>, v: real, w: real)
    requires treeCount >= 1 && sampleSize >= 4 && Lawful(source) && |history| > 0
    requires (v >= Maximum(history) && w >= Maximum(history)) || (v <= Minimum(history) && w <= Minimum(history))
    ensures Detected(source, log, exp2, treeCount, sampleSize, threshold, history, v)
            == Detected(source, log, exp2, treeCount, sampleSize, threshold, history, w)
  {
    if |history| >= 8 {
      var n := SampleSize(sampleSize, history);
      ForestIsGrown(source, history, n, treeCount);
      ExtremesScoreAlike(log, exp2, threshold, history, n, Forest(source, history, n, treeCount).0, v, w);
    }
  }

  // ---- what a verdict says -----------------------------------------------------------------

  /** A path is the turns taken, and what an unsuccessful search among the leaf's samples would add. */
  lemma {:induction false} PathIsRoute(log: real -> real, v: real, t: Tree, depth: nat)
    ensures PathLength(log, v, t, depth) == (depth + |Route(t, v)|) as real + UnsuccessfulPath(log, LeafSize(t, v))
    decreases t
  {
    if t.Node? { PathIsRoute(log, v, if v < t.split then t.left else t.right, depth + 1); }
  }

  function Lengths(log: real -> real, v: real, forest: seq<Tree>): seq<real> {
    seq(|forest|, i requires 0 <= i < |forest| => |Route(forest[i], v)| as real
        + UnsuccessfulPath(log, LeafSize(forest[i], v)))
  }

  function Sum(s: seq<real>): real {
    if s == [] then 0.0 else Sum(s[..|s| - 1]) + s[|s| - 1]
  }

  lemma {:induction false} TotalIsSum(log: real -> real, v: real, forest: seq<Tree>)
    ensures Total(log, v, forest) == Sum(Lengths(log, v, forest))
  {
    if forest != [] {
      var n := |forest| - 1;
      TotalIsSum(log, v, forest[..n]);
      PathIsRoute(log, v, forest[n], 0);
      assert Lengths(log, v, forest)[..n] == Lengths(log, v, forest[..n]);
    }
  }

  /** Two to the power of minus the average path, measured in unsuccessful searches. */
  function ScoreOf(exp2: real -> real, total: real, count: real, unit: real): real
    requires count > 0.0 && unit > 0.0
  {
    exp2(-(total / count) / unit)
  }

  lemma JudgeMeans(log: real -> real, exp2: real -> real, threshold: real, n: nat, total: real, count: nat)
    requires UnsuccessfulPath(log, n) > 0.0 && count > 0
    ensures var r := Judge(log, exp2, threshold, n, total, count);
            && (r.anomalous <==> r.score >= threshold)
            && r.score == ScoreOf(exp2, total, count as real, UnsuccessfulPath(log, n))
  {
  }

  /** A value is anomalous exactly when its score reaches the threshold, and the score is that of the paths
    * the value takes.
    */
  lemma VerdictMeans(log: real -> real, exp2: real -> real, threshold: real, n: nat, forest: seq<Tree>, v: real)
    requires UnsuccessfulPath(log, n) > 0.0 && |forest| > 0
    ensures var r := Verdict(log, exp2, threshold, n, forest, v);
            && (r.anomalous <==> r.score >= threshold)
            && r.score == ScoreOf(exp2, Sum(Lengths(log, v, forest)), |forest| as real, UnsuccessfulPath(log, n))
  {
    TotalIsSum(log, v, forest);
    JudgeMeans(log, exp2, threshold, n, Total(log, v, forest), |forest|);
  }

  // ---- the range of scores -----------------------------------------------------------------

  /** What is used of the library functions: logarithms of 2 and more are at least one half; powers of
    * two with exponents up to 0 lie in (0, 1] and grow.
    */
  ghost predicate Logarithm(log: real -> real) {
    forall x :: x >= 2.0 ==> log(x) >= 0.5
  }

  ghost predicate Exponential(exp2: real -> real) {
    && (forall x :: x <= 0.0 ==> 0.0 < exp2(x) <= 1.0)
    && (forall x, y :: x < y ==> exp2(x) < exp2(y))
  }

  lemma NearlyTwo(n: nat)
    requires n >= 1
    ensures 2.0 * (n - 1) as real / n as real < 2.0
  {
    var a, b := 2.0 * (n - 1) as real, n as real;
    QuotientAtLeast(a, b, 2.0);
  }

  lemma UnsuccessfulPathSign(log: real -> real, n: nat)
    requires Logarithm(log)
    ensures UnsuccessfulPath(log, n) >= 0.0
    ensures n >= 2 ==> UnsuccessfulPath(log, n) > 0.0
    ensures n <= 1 ==> UnsuccessfulPath(log, n) == 0.0
    ensures n == 2 ==> UnsuccessfulPath(log, n) == 1.0
  {
    if n >= 3 {
      NearlyTwo(n);
      assert log((n - 1) as real) >= 0.5;
    }
  }

  /** From three samples on it is twice the harmonic number of one less, estimated by the logarithm and
    * Euler's constant, less twice the share of that one less.
    */
  lemma UnsuccessfulPathIsSpelled(log: real -> real, n: nat, harmonic: real)
    requires n >= 3 && harmonic == log((n - 1) as real) + 0.5772156649015329
    ensures (2.0 * harmonic - UnsuccessfulPath(log, n)) * n as real == 2.0 * n as real - 2.0
  {
    var share := 2.0 * (n - 1) as real / n as real;
    assert UnsuccessfulPath(log, n) == 2.0 * harmonic - share;
    assert share * n as real == 2.0 * (n - 1) as real;
  }

  lemma {:induction false} PathAtLeastDepth(log: real -> real, v: real, t: Tree, depth: nat)
    requires Logarithm(log)
    ensures PathLength(log, v, t, depth) >= depth as real
    decreases t
  {
    if t.Leaf? {
      UnsuccessfulPathSign(log, t.size);
    } else {
      PathAtLeastDepth(log, v, if v < t.split then t.left else t.right, depth + 1);
    }
  }

  lemma {:induction false} TotalNonNegative(log: real -> real, v: real, forest: seq<Tree>)
    requires Logarithm(log)
    ensures Total(log, v, forest) >= 0.0
  {
    if forest != [] {
      TotalNonNegative(log, v, forest[..|forest| - 1]);
      PathAtLeastDepth(log, v, forest[|forest| - 1], 0);
    }
  }

  lemma ExponentOrder(p: real, q: real, size: real, c: real)
    requires 0.0 <= p < q && size > 0.0 && c > 0.0
    ensures -(q / size) / c < -(p / size) / c <= 0.0
  {
    var a, b := p / size, q / size;
    assert a * size == p && b * size == q;
    QuotientAtLeast(p, size, b);
    QuotientAtLeast(p, size, 0.0);
    var x, y := -a / c, -b / c;
    assert x * c == -a && y * c == -b;
    QuotientAtLeast(-b, c, x);
    if x > 0.0 { var z := Positive(x, c); }
  }

  /** The detector's samples are large enough for a score in (0, 1], and longer paths lower it. */
  lemma ScoreFallsWithPath(log: real -> real, exp2: real -> real, threshold: real, n: nat, forest: seq<Tree>, v: real,
                           w: real)
    requires Logarithm(log) && Exponential(exp2) && n >= 4 && |forest| > 0
    ensures 0.0 < Verdict(log, exp2, threshold, n, forest, v).score <= 1.0
    ensures Total(log, v, forest) < Total(log, w, forest) <==>
            Verdict(log, exp2, threshold, n, forest, v).score > Verdict(log, exp2, threshold, n, forest, w).score
  {
    var p, q, size, c := Total(log, v, forest), Total(log, w, forest), |forest| as real, UnsuccessfulPath(log, n);
    UnsuccessfulPathSign(log, n);
    TotalNonNegative(log, v, forest);
    TotalNonNegative(log, w, forest);
    ExponentOrder(p, p + 1.0, size, c);
    if p < q {
      ExponentOrder(p, q, size, c);
    } else if q < p {
      ExponentOrder(q, p, size, c);
    }
  }
}
