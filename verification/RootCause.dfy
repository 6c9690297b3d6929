/** Root-cause ranking: a breadth-first search over who depends on whom, and a weighted score. */
module RootCause {
  import opened Numbers
  import opened RealAlgebra
  import opened Ranking

  type Asset = string

  datatype Edge = Edge(source: Asset, target: Asset, relation: string)

  /** `at` in seconds. */
  datatype Anomaly = Anomaly(asset: Asset, score: real, at: real, evidence: nat)

  datatype Hypothesis = Hypothesis(asset: Asset, score: real, evidence: nat)

  // ---- who depends on whom -----------------------------------------------------------------

  ghost predicate DependsOn(edges: seq<Edge>, source: Asset, target: Asset) {
    exists e :: e in edges && e.relation == "depends_on" && e.source == source && e.target == target
  }

  /** Each asset of the path depends on the one before it. */
  ghost predicate Path(edges: seq<Edge>, p: seq<Asset>) {
    |p| >= 2 && forall i :: 0 <= i < |p| - 1 ==> DependsOn(edges, p[i + 1], p[i])
  }

  /** `asset` depends on `root`, directly or through others. */
  ghost predicate Reaches(edges: seq<Edge>, root: Asset, asset: Asset) {
    exists p :: Path(edges, p) && p[0] == root && p[|p| - 1] == asset
  }

  function Sources(edges: seq<Edge>): set<Asset> {
    set e | e in edges :: e.source
  }

  ghost function Dependents(edges: seq<Edge>, root: Asset): set<Asset> {
    set x | x in Sources(edges) && Reaches(edges, root, x)
  }

  lemma ReachedIsSource(edges: seq<Edge>, root: Asset, asset: Asset)
    requires Reaches(edges, root, asset)
    ensures asset in Dependents(edges, root)
  {
    var p :| Path(edges, p) && p[0] == root && p[|p| - 1] == asset;
    assert DependsOn(edges, p[|p| - 2 + 1], p[|p| - 2]);
  }

  lemma ReachesDirectly(edges: seq<Edge>, root: Asset, asset: Asset)
    requires DependsOn(edges, asset, root)
    ensures Reaches(edges, root, asset)
  {
    assert Path(edges, [root, asset]);
  }

  lemma ReachesThrough(edges: seq<Edge>, root: Asset, middle: Asset, asset: Asset)
    requires Reaches(edges, root, middle) && Reaches(edges, middle, asset)
    ensures Reaches(edges, root, asset)
  {
    var p :| Path(edges, p) && p[0] == root && p[|p| - 1] == middle;
    var q :| Path(edges, q) && q[0] == middle && q[|q| - 1] == asset;
    var r := p + q[1..];
    forall i | 0 <= i < |r| - 1 ensures DependsOn(edges, r[i + 1], r[i]) {
      if i < |p| - 1 {
        assert DependsOn(edges, p[i + 1], p[i]);
      } else {
        var k := i - (|p| - 1);
        assert r[i] == q[k] && r[i + 1] == q[k + 1];
        assert DependsOn(edges, q[k + 1], q[k]);
      }
    }
    assert Path(edges, r);
  }

  // ---- the search --------------------------------------------------------------------------

  type Index = map<Asset, set<Asset>>

  function Get(index: Index, a: Asset): set<Asset> {
    if a in index then index[a] else {}
  }

  ghost predicate Indexes(index: Index, edges: seq<Edge>) {
    forall a, b :: b in Get(index, a) <==> DependsOn(edges, b, a)
  }

  method BuildIndex(edges: seq<Edge>) returns (index: Index)
    ensures Indexes(index, edges)
  {
    index := map[];
    for k := 0 to |edges|
      invariant Indexes(index, edges[..k])
    {
      var e := edges[k];
      ghost var before := index;
      if e.relation == "depends_on" {
        index := index[e.target := Get(index, e.target) + {e.source}];
      }
      forall a, b ensures b in Get(index, a) <==> DependsOn(edges[..k + 1], b, a) {
        assert b in Get(before, a) <==> DependsOn(edges[..k], b, a);
        OneMoreEdge(edges, k, b, a);
      }
    }
    assert edges[..|edges|] == edges;
  }

  lemma OneMoreEdge(edges: seq<Edge>, k: nat, source: Asset, target: Asset)
    requires k < |edges|
    ensures DependsOn(edges[..k + 1], source, target)
            <==> DependsOn(edges[..k], source, target) || edges[k] == Edge(source, target, "depends_on")
  {
    assert edges[..k + 1] == edges[..k] + [edges[k]];
  }

  /** The set's elements in an order the program does not fix. */
  method Enumerate(s: set<Asset>) returns (q: seq<Asset>)
    ensures forall x :: x in q <==> x in s
  {
    q := [];
    var rest := s;
    while rest != {}
      invariant forall x :: x in s <==> x in q || x in rest
      decreases rest
    {
      var x :| x in rest;
      q := q + [x];
      rest := rest - {x};
    }
  }

  /** What a search still owes: every dependent of the root or of a visited asset is visited or queued. */
  ghost predicate Searching(edges: seq<Edge>, root: Asset, visited: set<Asset>, queue: seq<Asset>) {
    && (forall x :: x in visited || x in queue ==> x in Dependents(edges, root))
    && (forall x :: DependsOn(edges, x, root) ==> x in visited || x in queue)
    && (forall v, x :: v in visited && DependsOn(edges, x, v) ==> x in visited || x in queue)
  }

  lemma {:induction false} SearchIsComplete(edges: seq<Edge>, root: Asset, visited: set<Asset>, p: seq<Asset>, i: nat)
    requires Searching(edges, root, visited, [])
    requires Path(edges, p) && p[0] == root && 1 <= i < |p|
    ensures p[i] in visited
  {
    if i > 1 { SearchIsComplete(edges, root, visited, p, i - 1); }
    assert DependsOn(edges, p[i - 1 + 1], p[i - 1]);
  }

  /** The search visits exactly the transitive dependents, whatever the graph and the set orders. */
  method ReachableDependents(ghost edges: seq<Edge>, root: Asset, index: Index) returns (visited: set<Asset>)
    requires Indexes(index, edges)
    ensures visited == Dependents(edges, root)
  {
    visited := {};
    var queue := Enumerate(Get(index, root));
    forall x | x in queue ensures x in Dependents(edges, root) {
      ReachesDirectly(edges, root, x);
      ReachedIsSource(edges, root, x);
    }
    while queue != []
      invariant Searching(edges, root, visited, queue)
      decreases Dependents(edges, root) - visited, |queue|
    {
      var current := queue[0];
      queue := queue[1..];
      if current !in visited {
        var more := Enumerate(Get(index, current));
        forall x | x in more ensures x in Dependents(edges, root) {
          ReachesDirectly(edges, current, x);
          ReachesThrough(edges, root, current, x);
          ReachedIsSource(edges, root, x);
        }
        visited := visited + {current};
        queue := queue + more;
      }
    }
    forall x | x in Dependents(edges, root) ensures x in visited {
      var p :| Path(edges, p) && p[0] == root && p[|p| - 1] == x;
      SearchIsComplete(edges, root, visited, p, |p| - 1);
    }
  }

  // ---- the score ---------------------------------------------------------------------------

  function Earliest(s: seq<Anomaly>): (t: real)
    requires |s| > 0
    ensures forall i :: 0 <= i < |s| ==> t <= s[i].at
    ensures exists i :: 0 <= i < |s| && t == s[i].at
  {
    if |s| == 1 then s[0].at
    else
      var t := Earliest(s[..|s| - 1]);
      if s[|s| - 1].at < t then s[|s| - 1].at else t
  }

  function Latest(s: seq<Anomaly>): (t: real)
    requires |s| > 0
    ensures forall i :: 0 <= i < |s| ==> s[i].at <= t
    ensures exists i :: 0 <= i < |s| && t == s[i].at
  {
    if |s| == 1 then s[0].at
    else
      var t := Latest(s[..|s| - 1]);
      if s[|s| - 1].at > t then s[|s| - 1].at else t
  }

  function Span(s: seq<Anomaly>): real
    requires |s| > 0
  {
    MaxReal(Latest(s) - Earliest(s), 1.0)
  }

  function Severity(a: Anomaly): real {
    MinReal(MaxReal(a.score, 0.0) / 5.0, 1.0)
  }

  /** The share of the span that has passed, none at least and all at most. */
  function Elapsed(time: real, span: real): real
    requires span > 0.0
  {
    MinReal(MaxReal(time / span, 0.0), 1.0)
  }

  /** 1 for the earliest anomaly, 0 for one a whole span later. */
  function Lead(s: seq<Anomaly>, a: Anomaly): real
    requires |s| > 0
  {
    1.0 - Elapsed(a.at - Earliest(s), Span(s))
  }

  function Assets(s: seq<Anomaly>): set<Asset> {
    set a | a in s :: a.asset
  }

  function Others(s: seq<Anomaly>): real {
    if |s| >= 2 then (|s| - 1) as real else 1.0
  }

  function Coverage(s: seq<Anomaly>, reachable: set<Asset>): real {
    |reachable * Assets(s)| as real / Others(s)
  }

  function Score(s: seq<Anomaly>, a: Anomaly, reachable: set<Asset>): real
    requires |s| > 0
  {
    0.45 * Severity(a) + 0.30 * Lead(s, a) + 0.25 * Coverage(s, reachable)
  }

  function Candidate(s: seq<Anomaly>, a: Anomaly, reachable: set<Asset>): Hypothesis
    requires |s| > 0
  {
    Hypothesis(a.asset, Score(s, a, reachable), a.evidence)
  }

  ghost function Explain(edges: seq<Edge>, s: seq<Anomaly>, a: Anomaly): Hypothesis
    requires |s| > 0
  {
    Candidate(s, a, Dependents(edges, a.asset))
  }

  /** The hypotheses of the first `k` anomalies. */
  ghost function ExplainAll(edges: seq<Edge>, s: seq<Anomaly>, k: nat): (r: seq<Hypothesis>)
    requires k <= |s|
    ensures |r| == k
  {
    if k == 0 then [] else ExplainAll(edges, s, k - 1) + [Explain(edges, s, s[k - 1])]
  }

  lemma {:induction false} ExplainAllAt(edges: seq<Edge>, s: seq<Anomaly>, k: nat, i: nat)
    requires i < k <= |s|
    ensures ExplainAll(edges, s, k)[i] == Explain(edges, s, s[i])
  {
    if i < k - 1 { ExplainAllAt(edges, s, k - 1, i); }
  }

  function ByScore(): Hypothesis -> real {
    (h: Hypothesis) => h.score
  }

  ghost function Ranked(edges: seq<Edge>, s: seq<Anomaly>, limit: int): seq<Hypothesis> {
    if s == [] || limit < 1 then []
    else
      var all := Descending(ExplainAll(edges, s, |s|), ByScore());
      if limit < |all| then all[..limit] else all
  }

  // ---- what a hypothesis says --------------------------------------------------------------

  /** Fifths of the anomaly score, between none and full. */
  ghost predicate IsSeverity(a: Anomaly, x: real) {
    && (a.score <= 0.0 ==> x == 0.0) && (a.score >= 5.0 ==> x == 1.0)
    && (0.0 < a.score < 5.0 ==> 5.0 * x == a.score)
  }

  /** From the first anomaly to the last, a second at least. */
  ghost predicate Spans(s: seq<Anomaly>, first: Anomaly, last: Anomaly, span: real) {
    && first in s && last in s && (forall b :: b in s ==> first.at <= b.at <= last.at)
    && (last.at - first.at >= 1.0 ==> span == last.at - first.at) && (last.at - first.at < 1.0 ==> span == 1.0)
  }

  /** The share of the span that is left when the anomaly begins. */
  ghost predicate IsLead(s: seq<Anomaly>, a: Anomaly, x: real) {
    exists first, last, span :: Spans(s, first, last, span) && span > 0.0 && x == 1.0 - (a.at - first.at) / span
  }

  /** Exactly the anomalous assets that depend on the candidate's. */
  ghost predicate Explained(edges: seq<Edge>, s: seq<Anomaly>, a: Anomaly, explained: set<Asset>) {
    forall b :: b in explained <==> (exists c :: c in s && c.asset == b) && Reaches(edges, a.asset, b)
  }

  /** How many those are, per other anomaly. */
  ghost predicate IsCoverage(edges: seq<Edge>, s: seq<Anomaly>, a: Anomaly, x: real) {
    exists explained ::
      Explained(edges, s, a, explained)
      && x == |explained| as real / if |s| >= 2 then (|s| - 1) as real else 1.0
  }

  /** The hypothesis names the anomaly's own asset and evidence, and weighs severity, lead and coverage. */
  ghost predicate Blames(edges: seq<Edge>, s: seq<Anomaly>, a: Anomaly, h: Hypothesis) {
    && h.asset == a.asset && h.evidence == a.evidence
    && exists severity, lead, coverage ::
         IsSeverity(a, severity) && IsLead(s, a, lead) && IsCoverage(edges, s, a, coverage)
         && h.score == 0.45 * severity + 0.30 * lead + 0.25 * coverage
  }

  ghost predicate BlamesSome(edges: seq<Edge>, s: seq<Anomaly>, h: Hypothesis) {
    exists a :: a in s && Blames(edges, s, a, h)
  }

  lemma SeverityMeans(a: Anomaly)
    ensures IsSeverity(a, Severity(a))
  {
  }

  lemma LeadMeans(s: seq<Anomaly>, a: Anomaly)
    requires a in s
    ensures IsLead(s, a, Lead(s, a))
  {
    var first, last := EndsOf(s);
    var q := ShareOf(a.at - first.at, Span(s));
    LeadIs(s, a, first, last, Span(s), q);
  }

  lemma LeadIs(s: seq<Anomaly>, a: Anomaly, first: Anomaly, last: Anomaly, span: real, q: real)
    requires Spans(s, first, last, span) && span > 0.0 && q == (a.at - first.at) / span
    ensures IsLead(s, a, 1.0 - q)
  {
  }

  lemma EndsOf(s: seq<Anomaly>) returns (first: Anomaly, last: Anomaly)
    requires |s| > 0
    ensures first in s && last in s && first.at == Earliest(s) && last.at == Latest(s)
    ensures Spans(s, first, last, Span(s)) && forall b :: b in s ==> first.at <= b.at <= last.at
  {
    var i :| 0 <= i < |s| && s[i].at == Earliest(s);
    var j :| 0 <= j < |s| && s[j].at == Latest(s);
    first, last := s[i], s[j];
  }

  lemma ShareOf(time: real, span: real) returns (q: real)
    requires span > 0.0 && 0.0 <= time <= span
    ensures q == time / span == Elapsed(time, span)
  {
    q := time / span;
    assert q * span == time;
    if q < 0.0 { var z := Positive(-q, span); } else if q > 1.0 { var z := Positive(q - 1.0, span); }
  }

  lemma CoverageMeans(edges: seq<Edge>, s: seq<Anomaly>, a: Anomaly)
    requires a in s
    ensures IsCoverage(edges, s, a, Coverage(s, Dependents(edges, a.asset)))
  {
    var explained := Dependents(edges, a.asset) * Assets(s);
    assert Explained(edges, s, a, explained) by {
      forall b | Reaches(edges, a.asset, b) ensures b in Dependents(edges, a.asset) {
        ReachedIsSource(edges, a.asset, b);
      }
    }
  }

  lemma ExplainBlames(edges: seq<Edge>, s: seq<Anomaly>, a: Anomaly)
    requires a in s
    ensures Blames(edges, s, a, Explain(edges, s, a))
  {
    SeverityMeans(a);
    LeadMeans(s, a);
    CoverageMeans(edges, s, a);
  }

  /** What is named, and on what evidence. */
  function Named(r: seq<Hypothesis>): seq<(Asset, nat)> {
    seq(|r|, i requires 0 <= i < |r| => (r[i].asset, r[i].evidence))
  }

  function Seen(s: seq<Anomaly>): seq<(Asset, nat)> {
    seq(|s|, i requires 0 <= i < |s| => (s[i].asset, s[i].evidence))
  }

  lemma {:induction false} PlaceNames(x: Hypothesis, s: seq<Hypothesis>)
    ensures multiset(Named(Place(x, s, ByScore()))) == multiset(Named(s)) + multiset{(x.asset, x.evidence)}
  {
    if |s| == 0 || ByScore()(s[0]) <= ByScore()(x) {
      assert Named([x] + s) == [(x.asset, x.evidence)] + Named(s);
    } else {
      PlaceNames(x, s[1..]);
      assert Named(s) == [(s[0].asset, s[0].evidence)] + Named(s[1..]);
      var rest := Place(x, s[1..], ByScore());
      assert Named([s[0]] + rest) == [(s[0].asset, s[0].evidence)] + Named(rest);
    }
  }

  lemma {:induction false} SortingNames(s: seq<Hypothesis>)
    ensures multiset(Named(Descending(s, ByScore()))) == multiset(Named(s))
  {
    if |s| > 0 {
      SortingNames(s[1..]);
      PlaceNames(s[0], Descending(s[1..], ByScore()));
      assert Named(s) == [(s[0].asset, s[0].evidence)] + Named(s[1..]);
    }
  }

  /** Every hypothesis blames one of the anomalies; unless the limit cuts, each anomaly is named once; the
    * answer is as long as the limit and the anomalies allow, and its scores never rise.
    */
  lemma RankedBlames(edges: seq<Edge>, s: seq<Anomaly>, limit: int)
    ensures var r := Ranked(edges, s, limit);
            && (forall h :: h in r ==> BlamesSome(edges, s, h))
            && (limit >= |s| > 0 ==> multiset(Named(r)) == multiset(Seen(s)))
            && |r| == (if limit < 1 then 0 else if limit < |s| then limit else |s|)
            && (forall i, j :: 0 <= i < j < |r| ==> r[i].score >= r[j].score)
  {
    if s != [] && limit >= 1 {
      var all, r := ExplainAll(edges, s, |s|), Ranked(edges, s, limit);
      var sorted := Descending(all, ByScore());
      ExplainAllNames(edges, s);
      SortedIsAll(all);
      SortingNames(all);
      assert r <= sorted;
      forall h | h in r ensures BlamesSome(edges, s, h) {
        assert h in sorted;
        ExplainAllBlames(edges, s, h);
      }
    }
  }

  lemma SortedIsAll(all: seq<Hypothesis>)
    ensures var sorted := Descending(all, ByScore());
            && |sorted| == |all| && (forall h :: h in sorted <==> h in all)
            && forall i, j :: 0 <= i < j < |sorted| ==> sorted[i].score >= sorted[j].score
  {
    var sorted := Descending(all, ByScore());
    DescendingSorts(all, ByScore());
    SameMembers(all, ByScore());
    forall i, j | 0 <= i < j < |sorted| ensures sorted[i].score >= sorted[j].score {
      assert ByScore()(sorted[i]) >= ByScore()(sorted[j]);
    }
  }

  lemma OneBlames(edges: seq<Edge>, s: seq<Anomaly>, i: nat)
    requires i < |s|
    ensures BlamesSome(edges, s, ExplainAll(edges, s, |s|)[i])
  {
    ExplainAllAt(edges, s, |s|, i);
    ExplainBlames(edges, s, s[i]);
    assert s[i] in s;
  }

  lemma ExplainAllNames(edges: seq<Edge>, s: seq<Anomaly>)
    requires |s| > 0
    ensures Named(ExplainAll(edges, s, |s|)) == Seen(s)
  {
    forall i: nat | i < |s| ensures ExplainAll(edges, s, |s|)[i] == Explain(edges, s, s[i]) {
      ExplainAllAt(edges, s, |s|, i);
    }
  }

  lemma ExplainAllBlames(edges: seq<Edge>, s: seq<Anomaly>, h: Hypothesis)
    requires |s| > 0 && h in ExplainAll(edges, s, |s|)
    ensures BlamesSome(edges, s, h)
  {
    var i :| 0 <= i < |s| && ExplainAll(edges, s, |s|)[i] == h;
    OneBlames(edges, s, i);
  }

  method ScoreOne(ghost edges: seq<Edge>, anomalies: seq<Anomaly>, a: Anomaly, index: Index) returns (h: Hypothesis)
    requires anomalies != [] && Indexes(index, edges)
    ensures h == Explain(edges, anomalies, a)
  {
    var reachable := ReachableDependents(edges, a.asset, index);
    h := Candidate(anomalies, a, reachable);
  }

  method ScoreAll(edges: seq<Edge>, anomalies: seq<Anomaly>) returns (results: seq<Hypothesis>)
    requires anomalies != []
    ensures results == ExplainAll(edges, anomalies, |anomalies|)
  {
    var index := BuildIndex(edges);
    results := [];
    for k := 0 to |anomalies|
      invariant results == ExplainAll(edges, anomalies, k)
    {
      var h := ScoreOne(edges, anomalies, anomalies[k], index);
      results := results + [h];
    }
  }

  method Rank(edges: seq<Edge>, anomalies: seq<Anomaly>, limit: int) returns (r: seq<Hypothesis>)
    ensures r == Ranked(edges, anomalies, limit)
    ensures forall h :: h in r ==> BlamesSome(edges, anomalies, h)
    ensures limit >= |anomalies| > 0 ==> multiset(Named(r)) == multiset(Seen(anomalies))
    ensures |r| == (if limit < 1 then 0 else if limit < |anomalies| then limit else |anomalies|)
    ensures forall i, j :: 0 <= i < j < |r| ==> r[i].score >= r[j].score
  {
    RankedBlames(edges, anomalies, limit);
    if anomalies == [] || limit < 1 { return []; }
    var results := ScoreAll(edges, anomalies);
    var sorted := Descending(results, ByScore());
    r := if limit < |sorted| then sorted[..limit] else sorted;
  }

  // ---- what a score can be -----------------------------------------------------------------

  lemma {:induction false} AssetsAreFew(s: seq<Anomaly>)
    ensures |Assets(s)| <= |s|
  {
    if |s| > 0 {
      var rest := s[..|s| - 1];
      AssetsAreFew(rest);
      assert s == rest + [s[|s| - 1]];
      assert Assets(s) == Assets(rest) + {s[|s| - 1].asset};
    }
  }

  lemma Fewer(a: set<Asset>, b: set<Asset>)
    requires a <= b
    ensures |a| <= |b|
    ensures a != b ==> |a| < |b|
  {
    assert b == a + (b - a);
    assert |b| == |a| + |b - a|;
    if a != b {
      var x :| x in b - a;
    }
  }

  /** Severity and lead are shares of one. */
  lemma PartsAreShares(s: seq<Anomaly>, a: Anomaly)
    requires |s| > 0
    ensures 0.0 <= Severity(a) <= 1.0 && 0.0 <= Lead(s, a) <= 1.0
  {
  }

  /** Coverage is a share of one, unless every anomaly is of an asset of its own and all of them,
    * the candidate's included, depend on the candidate.
    */
  lemma CoverageIsShare(s: seq<Anomaly>, reachable: set<Asset>)
    requires |s| > 0
    ensures Coverage(s, reachable) >= 0.0
    ensures Coverage(s, reachable) > 1.0 <==> |s| >= 2 && |Assets(s)| == |s| && Assets(s) <= reachable
  {
    var explained := reachable * Assets(s);
    AssetsAreFew(s);
    Fewer(explained, Assets(s));
    assert explained == Assets(s) <==> Assets(s) <= reachable;
    assert |explained| as real > Others(s) <==> |s| >= 2 && |explained| == |s|;
    ShareExactly(|explained| as real, Others(s));
  }

  lemma ShareExactly(e: real, o: real)
    requires e >= 0.0 && o > 0.0
    ensures e / o >= 0.0 && (e / o > 1.0 <==> e > o)
  {
    QuotientAtLeast(e, o, 0.0);
    var q := e / o;
    assert q * o == e;
    if q <= 1.0 { Monotone(q, 1.0, o); } else { StrictlyMonotone(1.0, q, o); }
  }

  /** What the candidate's coverage exceeds 1 by, once it covers every anomaly. */
  lemma FullCoverage(s: seq<Anomaly>, reachable: set<Asset>)
    requires |s| >= 2 && |Assets(s)| == |s| && Assets(s) <= reachable
    ensures Coverage(s, reachable) == 1.0 + 1.0 / (|s| - 1) as real
  {
    assert reachable * Assets(s) == Assets(s);
    OneMore((|s| - 1) as real);
  }

  lemma OneMore(o: real)
    requires o > 0.0
    ensures (o + 1.0) / o == 1.0 + 1.0 / o
  {
    var p, q := (o + 1.0) / o, 1.0 / o;
    assert p * o == o + 1.0 && q * o == 1.0;
    assert (p - 1.0 - q) * o == 0.0;
    if p - 1.0 - q > 0.0 {
      var z := Positive(p - 1.0 - q, o);
    } else if p - 1.0 - q < 0.0 {
      var z := Positive(1.0 + q - p, o);
    }
  }

  /** A score exceeds 1 exactly when every anomaly is of an asset of its own, all of them, the
    * candidate's included, depend on the candidate, and what severity and lead lack of their full
    * weight is less than what coverage has too much.
    */
  lemma ScoreAboveOne(edges: seq<Edge>, s: seq<Anomaly>, a: Anomaly)
    requires a in s
    ensures Explain(edges, s, a).score >= 0.0
    ensures Explain(edges, s, a).score > 1.0 <==>
              && |s| >= 2 && |Assets(s)| == |s| && Assets(s) <= Dependents(edges, a.asset)
              && 0.45 * (1.0 - Severity(a)) + 0.30 * (1.0 - Lead(s, a)) < 0.25 / (|s| - 1) as real
  {
    var reachable := Dependents(edges, a.asset);
    PartsAreShares(s, a);
    CoverageIsShare(s, reachable);
    if Coverage(s, reachable) > 1.0 {
      FullCoverage(s, reachable);
      Quarter((|s| - 1) as real);
    }
  }

  lemma Quarter(o: real)
    requires o > 0.0
    ensures 0.25 / o == 0.25 * (1.0 / o)
  {
    var p, q := 0.25 / o, 1.0 / o;
    assert p * o == 0.25 && q * o == 1.0;
    assert (p - 0.25 * q) * o == 0.0;
    if p - 0.25 * q > 0.0 {
      var z := Positive(p - 0.25 * q, o);
    } else if p - 0.25 * q < 0.0 {
      var z := Positive(0.25 * q - p, o);
    }
  }

  /** So without a cycle through the candidate its score lies in [0, 1]. */
  lemma ScoreIsShare(edges: seq<Edge>, s: seq<Anomaly>, a: Anomaly)
    requires a in s && !Reaches(edges, a.asset, a.asset)
    ensures 0.0 <= Explain(edges, s, a).score <= 1.0
  {
    ScoreAboveOne(edges, s, a);
    assert a.asset in Assets(s);
  }

  lemma MutualDependents(edges: seq<Edge>)
    requires edges == [Edge("a", "b", "depends_on"), Edge("b", "a", "depends_on")]
    ensures {"a", "b"} <= Dependents(edges, "a")
  {
    assert DependsOn(edges, "a", "b") && DependsOn(edges, "b", "a") by {
      assert edges[0] in edges && edges[1] in edges;
    }
    ReachesDirectly(edges, "a", "b");
    ReachesDirectly(edges, "b", "a");
    ReachesThrough(edges, "a", "b", "a");
    ReachedIsSource(edges, "a", "a");
    ReachedIsSource(edges, "a", "b");
  }

  lemma TwoAssets(s: seq<Anomaly>)
    requires s == [Anomaly("a", 5.0, 0.0, 0), Anomaly("b", 5.0, 0.0, 1)]
    ensures Assets(s) == {"a", "b"} && |Assets(s)| == 2
    ensures Severity(s[0]) == 1.0 && Lead(s, s[0]) == 1.0
  {
    assert s[0] in s && s[1] in s;
    assert "a"[0] != "b"[0];
    assert Assets(s) == {"a", "b"};
    assert Earliest(s) == 0.0;
  }

  lemma FullScore(s: seq<Anomaly>, reachable: set<Asset>)
    requires s == [Anomaly("a", 5.0, 0.0, 0), Anomaly("b", 5.0, 0.0, 1)] && {"a", "b"} <= reachable
    ensures Score(s, s[0], reachable) == 1.25
  {
    TwoAssets(s);
    FullCoverage(s, reachable);
  }

  /** With one, it can exceed 1: two assets that depend on each other. */
  lemma CycleExceedsOne()
    ensures var edges := [Edge("a", "b", "depends_on"), Edge("b", "a", "depends_on")];
            var s := [Anomaly("a", 5.0, 0.0, 0), Anomaly("b", 5.0, 0.0, 1)];
            Explain(edges, s, s[0]).score == 1.25
  {
    var edges := [Edge("a", "b", "depends_on"), Edge("b", "a", "depends_on")];
    var s := [Anomaly("a", 5.0, 0.0, 0), Anomaly("b", 5.0, 0.0, 1)];
    MutualDependents(edges);
    FullScore(s, Dependents(edges, "a"));
  }

  // ---- causes before symptoms --------------------------------------------------------------

  lemma QuotientGrows(a: real, b: real, c: real)
    requires a <= b && c > 0.0
    ensures a / c <= b / c
  {
    var q := a / c;
    assert q * c == a;
    QuotientAtLeast(b, c, q);
  }

  lemma QuotientGrowsStrictly(a: real, b: real, c: real)
    requires a < b && c > 0.0
    ensures a / c < b / c
  {
    var q := b / c;
    assert q * c == b;
    QuotientAtLeast(a, c, q);
  }

  lemma CoverageGrows(edges: seq<Edge>, s: seq<Anomaly>, cause: Anomaly, symptom: Anomaly)
    requires cause in s && symptom in s
    requires Reaches(edges, cause.asset, symptom.asset) && !Reaches(edges, symptom.asset, symptom.asset)
    ensures Coverage(s, Dependents(edges, symptom.asset)) < Coverage(s, Dependents(edges, cause.asset))
  {
    var few, many := Dependents(edges, symptom.asset) * Assets(s), Dependents(edges, cause.asset) * Assets(s);
    forall x | x in few ensures x in many {
      ReachesThrough(edges, cause.asset, symptom.asset, x);
      ReachedIsSource(edges, cause.asset, x);
    }
    ReachedIsSource(edges, cause.asset, symptom.asset);
    assert symptom.asset in many && symptom.asset !in few;
    Fewer(few, many);
    QuotientGrowsStrictly(|few| as real, |many| as real, Others(s));
  }

  /** An anomalous dependency, at least as severe and as early as an anomaly that transitively depends
    * on it, scores strictly higher, unless that dependent depends on itself.
    */
  lemma CauseScoresHigher(edges: seq<Edge>, s: seq<Anomaly>, cause: Anomaly, symptom: Anomaly)
    requires cause in s && symptom in s
    requires Reaches(edges, cause.asset, symptom.asset) && !Reaches(edges, symptom.asset, symptom.asset)
    requires cause.score >= symptom.score && cause.at <= symptom.at
    ensures Explain(edges, s, cause).score > Explain(edges, s, symptom).score
  {
    CoverageGrows(edges, s, cause, symptom);
    LeadShrinks(s, cause, symptom);
    SeverityGrows(symptom, cause);
    HigherSum(s, cause, symptom, Dependents(edges, cause.asset), Dependents(edges, symptom.asset));
  }

  lemma HigherSum(s: seq<Anomaly>, a: Anomaly, b: Anomaly, many: set<Asset>, few: set<Asset>)
    requires |s| > 0 && Severity(a) >= Severity(b) && Lead(s, a) >= Lead(s, b) && Coverage(s, many) > Coverage(s, few)
    ensures Score(s, a, many) > Score(s, b, few)
  {
  }

  lemma SeverityGrows(a: Anomaly, b: Anomaly)
    requires a.score <= b.score
    ensures Severity(a) <= Severity(b)
  {
  }

  lemma LeadShrinks(s: seq<Anomaly>, a: Anomaly, b: Anomaly)
    requires |s| > 0 && a.at <= b.at
    ensures Lead(s, a) >= Lead(s, b)
  {
    QuotientGrows(a.at - Earliest(s), b.at - Earliest(s), Span(s));
  }

  ghost predicate Cut(scored: seq<Hypothesis>, limit: int, r: seq<Hypothesis>) {
    var all := Descending(scored, ByScore());
    0 <= limit && r == if limit < |all| then all[..limit] else all
  }

  lemma HigherSurvivesCut(scored: seq<Hypothesis>, limit: int, r: seq<Hypothesis>, high: Hypothesis, j: nat)
    requires Cut(scored, limit, r) && high in scored && j < |r| && high.score > r[j].score
    ensures exists i :: 0 <= i < j && r[i] == high
  {
    var all := Descending(scored, ByScore());
    NeverAscends(scored, ByScore());
    SameMembers(scored, ByScore());
    var i :| 0 <= i < |all| && all[i] == high;
    assert all[j] == r[j] && i < j;
    assert r[i] == high;
  }

  lemma LeftOutIsLower(scored: seq<Hypothesis>, limit: int, r: seq<Hypothesis>, h: Hypothesis, j: nat)
    requires Cut(scored, limit, r) && h in scored && h !in r && j < |r|
    ensures |r| == limit && r[j].score >= h.score
  {
    var all := Descending(scored, ByScore());
    NeverAscends(scored, ByScore());
    SameMembers(scored, ByScore());
    var i :| 0 <= i < |all| && all[i] == h;
    assert r == all[..|r|];
    forall x | 0 <= x < |r| ensures all[x] in r {
      assert r[x] == all[x];
    }
    assert ByScore()(all[j]) >= ByScore()(all[i]);
  }

  lemma ExplainListed(edges: seq<Edge>, s: seq<Anomaly>, a: Anomaly)
    requires a in s
    ensures Explain(edges, s, a) in ExplainAll(edges, s, |s|)
  {
    var k :| 0 <= k < |s| && s[k] == a;
    ExplainAllAt(edges, s, |s|, k);
  }

  /** Whatever the limit, a dependent in the answer comes after that dependency. */
  lemma CauseSurvivesCut(edges: seq<Edge>, s: seq<Anomaly>, limit: int, cause: Anomaly, symptom: Anomaly, j: nat)
    requires cause in s && symptom in s
    requires Reaches(edges, cause.asset, symptom.asset) && !Reaches(edges, symptom.asset, symptom.asset)
    requires cause.score >= symptom.score && cause.at <= symptom.at
    requires j < |Ranked(edges, s, limit)| && Ranked(edges, s, limit)[j] == Explain(edges, s, symptom)
    ensures exists i :: 0 <= i < j && Ranked(edges, s, limit)[i] == Explain(edges, s, cause)
  {
    CauseScoresHigher(edges, s, cause, symptom);
    ExplainListed(edges, s, cause);
    HigherSurvivesCut(ExplainAll(edges, s, |s|), limit, Ranked(edges, s, limit), Explain(edges, s, cause), j);
  }

  /** The answer holds the best scores: what is left out scores no higher than anything kept. */
  lemma RankedAreBest(edges: seq<Edge>, s: seq<Anomaly>, limit: int, a: Anomaly, j: nat)
    requires a in s && j < |Ranked(edges, s, limit)| && Explain(edges, s, a) !in Ranked(edges, s, limit)
    ensures |Ranked(edges, s, limit)| == limit
    ensures Ranked(edges, s, limit)[j].score >= Explain(edges, s, a).score
  {
    ExplainListed(edges, s, a);
    LeftOutIsLower(ExplainAll(edges, s, |s|), limit, Ranked(edges, s, limit), Explain(edges, s, a), j);
  }
}
