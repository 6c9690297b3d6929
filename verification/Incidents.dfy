/** Incidents, their evidence and status machine, and the correlation of new signals with them. */
module Incidents {
  import opened Numbers
  import opened Outcomes
  import opened Ranking

  datatype Status = Open | Investigating | WaitingApproval | Remediating | Resolved | Failed

  datatype Evidence = Evidence(source: string, query: string, startedAt: int, endedAt: int)

  /** `evidence` is the position, in the incident, of the evidence the hypothesis cites. */
  datatype Hypothesis = Hypothesis(assetId: string, score: real, evidence: nat)

  /** `CallRaised` is whatever the dispatcher or the verifier raised. */
  datatype ServiceError = NotFound | InvalidTransition | ApprovalExpired | IntegrityViolation | CallRaised

  datatype Incident = Incident(
    assetId: string,
    severity: string,
    status: Status,
    createdAt: int,
    updatedAt: int,
    evidence: seq<Evidence>,
    hypotheses: seq<Hypothesis>)
  {
    predicate Active() {
      status != Resolved && status != Failed
    }

    function WaitForApproval(now: int): Result<Incident, ServiceError> {
      if status == Open || status == Investigating then Ok(this.(status := WaitingApproval, updatedAt := now))
      else Err(InvalidTransition)
    }

    function StartRemediation(now: int): Result<Incident, ServiceError> {
      if status == WaitingApproval then Ok(this.(status := Remediating, updatedAt := now)) else Err(InvalidTransition)
    }

    function Finish(succeeded: bool, now: int): Result<Incident, ServiceError> {
      if status == Remediating then Ok(this.(status := if succeeded then Resolved else Failed, updatedAt := now))
      else Err(InvalidTransition)
    }

    function ResolveObservation(now: int): Result<Incident, ServiceError> {
      if status == Open || status == Investigating || status == WaitingApproval then
        Ok(this.(status := Resolved, updatedAt := now))
      else Err(InvalidTransition)
    }

    predicate Cites(query: string) {
      exists e :: 0 <= e < |evidence| && evidence[e].query == query
    }
  }

  /** Which status each transition starts from and leads to, and that it changes nothing but status and time. */
  lemma TransitionsAreSpelled(i: Incident, succeeded: bool, now: int)
    ensures i.WaitForApproval(now)
            == if i.status in {Open, Investigating} then Ok(i.(status := WaitingApproval, updatedAt := now))
               else Err(InvalidTransition)
    ensures i.StartRemediation(now)
            == if i.status in {WaitingApproval} then Ok(i.(status := Remediating, updatedAt := now))
               else Err(InvalidTransition)
    ensures i.Finish(succeeded, now)
            == if i.status !in {Remediating} then Err(InvalidTransition)
               else if succeeded then Ok(i.(status := Resolved, updatedAt := now))
               else Ok(i.(status := Failed, updatedAt := now))
    ensures i.ResolveObservation(now)
            == if i.status in {Open, Investigating, WaitingApproval} then Ok(i.(status := Resolved, updatedAt := now))
               else Err(InvalidTransition)
    ensures i.Active() <==> i.status in {Open, Investigating, WaitingApproval, Remediating}
  {
  }

  // ---- query names -------------------------------------------------------------------------

  const MONITOR_PREFIX := "registered://monitor-rules/"

  function AssetSelector(assetId: string): string {
    "{asset_id=\"" + assetId + "\"}"
  }

  function MetricQuery(name: string, assetId: string): string {
    name + AssetSelector(assetId)
  }

  function ChangeQuery(eventId: string): string {
    "change_event_id=" + eventId
  }

  function MonitorQuery(ruleId: string): string {
    MONITOR_PREFIX + ruleId
  }

  /** A rule id that ends like a metric query's asset selector. */
  ghost predicate LooksLikeMetric(ruleId: string) {
    exists stem, assetId :: ruleId == stem + AssetSelector(assetId)
  }

  lemma MonitorQueryInjective(a: string, b: string)
    ensures MonitorQuery(a) == MonitorQuery(b) <==> a == b
  {
    assert MonitorQuery(a)[|MONITOR_PREFIX|..] == a && MonitorQuery(b)[|MONITOR_PREFIX|..] == b;
  }

  lemma ChangeQueryInjective(a: string, b: string)
    ensures ChangeQuery(a) == ChangeQuery(b) <==> a == b
  {
    assert ChangeQuery(a)[16..] == a && ChangeQuery(b)[16..] == b;
  }

  lemma ChangeIsNotMonitor(eventId: string, ruleId: string)
    ensures ChangeQuery(eventId) != MonitorQuery(ruleId)
  {
    assert ChangeQuery(eventId)[0] == 'c' && MonitorQuery(ruleId)[0] == 'r';
  }

  lemma MetricMeetsMonitor(name: string, assetId: string, ruleId: string)
    requires MetricQuery(name, assetId) == MonitorQuery(ruleId)
    ensures MONITOR_PREFIX <= name && ruleId == name[|MONITOR_PREFIX|..] + AssetSelector(assetId)
  {
    var n := |MONITOR_PREFIX|;
    var q := MetricQuery(name, assetId);
    assert q[..n] == MONITOR_PREFIX && q[n..] == ruleId by { assert MonitorQuery(ruleId)[n..] == ruleId; }
    assert q[|name|] == '{';
    assert forall k :: 0 <= k < n ==> q[k] == MONITOR_PREFIX[k] && MONITOR_PREFIX[k] != '{';
    assert |name| >= n;
    assert q[n..] == name[n..] + AssetSelector(assetId);
    assert q[..n] == name[..n];
  }

  /** Some metric query is spelled like the rule's own query exactly when the rule id ends in an
    * asset selector; only then can a signal enter the monitor's namespace.
    */
  lemma NamespaceExact(ruleId: string)
    ensures (exists name, assetId :: MetricQuery(name, assetId) == MonitorQuery(ruleId)) <==> LooksLikeMetric(ruleId)
  {
    if name, assetId :| MetricQuery(name, assetId) == MonitorQuery(ruleId) {
      MetricMeetsMonitor(name, assetId, ruleId);
    }
    if stem, assetId :| ruleId == stem + AssetSelector(assetId) {
      assert MetricQuery(MONITOR_PREFIX + stem, assetId) == MonitorQuery(ruleId);
    }
  }

  // ---- listing and correlation -------------------------------------------------------------

  datatype Signal = Signal(assetId: string, name: string, occurredAt: int)

  datatype Edge = Edge(source: string, target: string, relation: string)

  datatype Match = Match(incident: nat, score: real)

  /** Milliseconds. */
  const CORRELATION_WINDOW := 300000
  const CHANGE_WINDOW := 1800000

  function Positions(n: nat): (r: seq<nat>)
    ensures |r| == n && forall i :: 0 <= i < n ==> r[i] == i
  {
    seq(n, i => i)
  }

  function CreatedAt(incidents: seq<Incident>): nat -> real {
    (i: nat) => if i < |incidents| then incidents[i].createdAt as real else 0.0
  }

  /** Positions of all incidents, newest first, equal ages in order of arrival. */
  function ListIncidents(incidents: seq<Incident>): (r: seq<nat>)
    ensures forall i :: i in r <==> 0 <= i < |incidents|
    ensures forall k :: 0 <= k < |r| ==> r[k] < |incidents|
  {
    SameMembers(Positions(|incidents|), CreatedAt(incidents));
    assert forall i :: i in Positions(|incidents|) <==> 0 <= i < |incidents| by {
      forall i | 0 <= i < |incidents| ensures i in Positions(|incidents|) { assert Positions(|incidents|)[i] == i; }
    }
    var r := Descending(Positions(|incidents|), CreatedAt(incidents));
    assert forall k :: 0 <= k < |r| ==> r[k] in r;
    r
  }

  /** Listed before: created later, or at the same time and saved first. */
  ghost predicate Before(incidents: seq<Incident>, a: nat, b: nat)
    requires a < |incidents| && b < |incidents|
  {
    incidents[a].createdAt > incidents[b].createdAt || (incidents[a].createdAt == incidents[b].createdAt && a < b)
  }

  ghost predicate InListing(s: seq<nat>, key: nat -> real) {
    forall p, q :: 0 <= p < q < |s| ==> key(s[p]) > key(s[q]) || (key(s[p]) == key(s[q]) && s[p] < s[q])
  }

  lemma {:induction false} PlaceKeepsListing(x: nat, s: seq<nat>, key: nat -> real)
    requires InListing(s, key) && forall y :: y in s ==> x < y
    ensures InListing(Place(x, s, key), key)
    ensures forall y :: y in Place(x, s, key) ==> y == x || y in s
  {
    if |s| > 0 {
      var tail := s[1..];
      forall q | 0 <= q < |tail| ensures tail[q] == s[q + 1] && tail[q] in s {}
      assert s[0] in s;
      if key(s[0]) > key(x) {
        PlaceKeepsListing(x, tail, key);
        var rest := Place(x, tail, key);
        forall q | 0 <= q < |rest|
          ensures key(s[0]) > key(rest[q]) || (key(s[0]) == key(rest[q]) && s[0] < rest[q])
        {
          if rest[q] in tail {
            var r :| 0 <= r < |tail| && tail[r] == rest[q];
            assert s[r + 1] == rest[q];
          }
        }
      } else {
        assert forall q :: 0 < q < |s| ==> key(s[0]) >= key(s[q]);
      }
    }
  }

  lemma {:induction false} DescendingLists(s: seq<nat>, key: nat -> real)
    requires forall p, q :: 0 <= p < q < |s| ==> s[p] < s[q]
    ensures InListing(Descending(s, key), key)
  {
    if |s| > 0 {
      DescendingLists(s[1..], key);
      SameMembers(s[1..], key);
      forall y | y in Descending(s[1..], key) ensures s[0] < y {
        var q :| 0 <= q < |s[1..]| && s[1..][q] == y;
        assert s[q + 1] == y;
      }
      PlaceKeepsListing(s[0], Descending(s[1..], key), key);
    }
  }

  /** The listing goes from the newest incident to the oldest, equal ages in order of arrival. */
  lemma ListingIsNewestFirst(incidents: seq<Incident>)
    ensures var listing := ListIncidents(incidents);
            forall p, q :: 0 <= p < q < |listing| ==> Before(incidents, listing[p], listing[q])
  {
    DescendingLists(Positions(|incidents|), CreatedAt(incidents));
    forall i: nat | i < |incidents| ensures CreatedAt(incidents)(i) == incidents[i].createdAt as real {}
  }

  predicate Adjacent(edges: seq<Edge>, a: string, b: string) {
    exists k :: 0 <= k < |edges| && edges[k].relation == "depends_on" && {edges[k].source, edges[k].target} == {a, b}
  }

  /** How strongly an incident correlates with a signal, None when it does not. */
  function Relevance(signal: Signal, incident: Incident, edges: seq<Edge>): Option<real> {
    if incident.status !in {Open, Investigating, WaitingApproval} then None
    else if Abs(signal.occurredAt - incident.updatedAt) > CORRELATION_WINDOW then None
    else if incident.assetId == signal.assetId then Some(1.0)
    else if Adjacent(edges, incident.assetId, signal.assetId) then Some(0.7)
    else None
  }

  function Candidates(signal: Signal, incidents: seq<Incident>, edges: seq<Edge>, listing: seq<nat>): (r: seq<Match>)
    requires forall k :: 0 <= k < |listing| ==> listing[k] < |incidents|
    ensures forall m :: m in r ==>
              m.incident in listing && Relevance(signal, incidents[m.incident], edges) == Some(m.score)
  {
    if listing == [] then []
    else
      var front, i := listing[..|listing| - 1], listing[|listing| - 1];
      var relevance := Relevance(signal, incidents[i], edges);
      Candidates(signal, incidents, edges, front) + if relevance.Some? then [Match(i, relevance.value)] else []
  }

  predicate Beats(incidents: seq<Incident>, a: Match, b: Match)
    requires a.incident < |incidents| && b.incident < |incidents|
  {
    a.score > b.score || (a.score == b.score && incidents[a.incident].updatedAt > incidents[b.incident].updatedAt)
  }

  /** The first candidate no other one beats. */
  function Best(incidents: seq<Incident>, candidates: seq<Match>): (r: Match)
    requires candidates != [] && forall m :: m in candidates ==> m.incident < |incidents|
    ensures r in candidates
  {
    var last := candidates[|candidates| - 1];
    if |candidates| == 1 then last
    else
      var best := Best(incidents, candidates[..|candidates| - 1]);
      if Beats(incidents, last, best) then last else best
  }

  lemma {:induction false} BestIsUnbeaten(incidents: seq<Incident>, candidates: seq<Match>)
    requires candidates != [] && forall m :: m in candidates ==> m.incident < |incidents|
    ensures var best := Best(incidents, candidates);
            exists k :: 0 <= k < |candidates| && candidates[k] == best
                        && (forall j :: 0 <= j < |candidates| ==> !Beats(incidents, candidates[j], best))
                        && (forall j :: 0 <= j < k ==> Beats(incidents, best, candidates[j]))
  {
    var n := |candidates| - 1;
    if n == 0 {
      assert candidates[0] == Best(incidents, candidates);
    } else {
      var front := candidates[..n];
      BestIsUnbeaten(incidents, front);
      var best := Best(incidents, front);
      var k :| 0 <= k < n && front[k] == best
               && (forall j :: 0 <= j < n ==> !Beats(incidents, front[j], best))
               && (forall j :: 0 <= j < k ==> Beats(incidents, best, front[j]));
      forall j | 0 <= j < n ensures candidates[j] == front[j] {}
      if Beats(incidents, candidates[n], best) {
        assert candidates[n] == Best(incidents, candidates);
        assert forall j :: 0 <= j < n ==> Beats(incidents, candidates[n], candidates[j]);
      } else {
        assert candidates[k] == Best(incidents, candidates);
      }
    }
  }

  function FindMatch(signal: Signal, incidents: seq<Incident>, edges: seq<Edge>): (r: Option<Match>)
    ensures r.Some? ==>
              r.value.incident < |incidents|
              && Relevance(signal, incidents[r.value.incident], edges) == Some(r.value.score)
  {
    var candidates := Candidates(signal, incidents, edges, ListIncidents(incidents));
    if candidates == [] then None else Some(Best(incidents, candidates))
  }

  lemma {:induction false} CandidatesComplete(signal: Signal, incidents: seq<Incident>, edges: seq<Edge>,
                                              listing: seq<nat>, i: nat)
    requires (forall k :: 0 <= k < |listing| ==> listing[k] < |incidents|) && i in listing
    requires Relevance(signal, incidents[i], edges).Some?
    ensures Match(i, Relevance(signal, incidents[i], edges).value) in Candidates(signal, incidents, edges, listing)
  {
    if i != listing[|listing| - 1] {
      CandidatesComplete(signal, incidents, edges, listing[..|listing| - 1], i);
    }
  }

  /** A match is found exactly when some incident is relevant, and none scores higher, or as high and
    * was updated later.
    */
  lemma MatchIsBest(signal: Signal, incidents: seq<Incident>, edges: seq<Edge>)
    ensures var r := FindMatch(signal, incidents, edges);
            && (r.None? <==> forall i :: 0 <= i < |incidents| ==> Relevance(signal, incidents[i], edges).None?)
            && (r.Some? ==> forall i :: 0 <= i < |incidents| && Relevance(signal, incidents[i], edges).Some? ==>
                  !Beats(incidents, Match(i, Relevance(signal, incidents[i], edges).value), r.value))
  {
    var listing := ListIncidents(incidents);
    var candidates := Candidates(signal, incidents, edges, listing);
    if candidates != [] { BestIsUnbeaten(incidents, candidates); }
    forall i | 0 <= i < |incidents| && Relevance(signal, incidents[i], edges).Some?
      ensures Match(i, Relevance(signal, incidents[i], edges).value) in candidates
    {
      CandidatesComplete(signal, incidents, edges, listing, i);
    }
  }

  // ---- which incident wins, in the signal's own terms --------------------------------------

  /** Not yet acted on, and updated within five minutes of the signal, before or after. */
  ghost predicate Recent(signal: Signal, incident: Incident) {
    && (incident.status == Open || incident.status == Investigating || incident.status == WaitingApproval)
    && -300000 <= signal.occurredAt - incident.updatedAt <= 300000
  }

  ghost predicate OfOwnAsset(signal: Signal, incidents: seq<Incident>, i: int) {
    0 <= i < |incidents| && Recent(signal, incidents[i]) && incidents[i].assetId == signal.assetId
  }

  /** Of an asset that the signal's asset depends on, or the other way round. */
  ghost predicate OfNeighbour(signal: Signal, incidents: seq<Incident>, edges: seq<Edge>, i: int) {
    && 0 <= i < |incidents| && Recent(signal, incidents[i]) && incidents[i].assetId != signal.assetId
    && exists e :: e in edges && e.relation == "depends_on"
                   && ((e.source == signal.assetId && e.target == incidents[i].assetId)
                       || (e.target == signal.assetId && e.source == incidents[i].assetId))
  }

  lemma RelevanceMeans(signal: Signal, incidents: seq<Incident>, edges: seq<Edge>, i: nat)
    requires i < |incidents|
    ensures Relevance(signal, incidents[i], edges) == Some(1.0) <==> OfOwnAsset(signal, incidents, i)
    ensures Relevance(signal, incidents[i], edges) == Some(0.7) <==> OfNeighbour(signal, incidents, edges, i)
    ensures Relevance(signal, incidents[i], edges) in {None, Some(0.7), Some(1.0)}
  {
    var other, own := incidents[i].assetId, signal.assetId;
    if other != own {
      if Adjacent(edges, other, own) {
        var k :| 0 <= k < |edges| && edges[k].relation == "depends_on"
            && {edges[k].source, edges[k].target} == {other, own};
        SamePair(edges[k].source, edges[k].target, other, own);
        assert edges[k] in edges;
      }
      if e :| e in edges && e.relation == "depends_on"
              && ((e.source == own && e.target == other) || (e.target == own && e.source == other)) {
        var k :| 0 <= k < |edges| && edges[k] == e;
        assert {edges[k].source, edges[k].target} == {other, own};
      }
    }
  }

  lemma SamePair(a: string, b: string, c: string, d: string)
    requires {a, b} == {c, d} && c != d
    ensures (a == c && b == d) || (a == d && b == c)
  {
    assert a in {c, d} && b in {c, d} && c in {a, b} && d in {a, b};
  }

  ghost predicate InOrder(incidents: seq<Incident>, c: seq<Match>) {
    && (forall p :: 0 <= p < |c| ==> c[p].incident < |incidents|)
    && forall p, q :: 0 <= p < q < |c| ==> Before(incidents, c[p].incident, c[q].incident)
  }

  lemma InOrderAppend(incidents: seq<Incident>, c: seq<Match>, m: Match)
    requires InOrder(incidents, c) && m.incident < |incidents|
    requires forall p :: 0 <= p < |c| ==> Before(incidents, c[p].incident, m.incident)
    ensures InOrder(incidents, c + [m])
  {
  }

  lemma {:induction false} CandidatesInOrder(signal: Signal, incidents: seq<Incident>, edges: seq<Edge>,
                                             listing: seq<nat>)
    requires forall k :: 0 <= k < |listing| ==> listing[k] < |incidents|
    requires forall p, q :: 0 <= p < q < |listing| ==> Before(incidents, listing[p], listing[q])
    ensures InOrder(incidents, Candidates(signal, incidents, edges, listing))
  {
    if listing != [] {
      var n := |listing| - 1;
      var front, last := listing[..n], listing[n];
      CandidatesInOrder(signal, incidents, edges, front);
      var c, relevance := Candidates(signal, incidents, edges, front), Relevance(signal, incidents[last], edges);
      forall p | 0 <= p < |c| ensures Before(incidents, c[p].incident, last) {
        assert c[p] in c && c[p].incident in front;
        var u :| 0 <= u < n && front[u] == c[p].incident;
        assert Before(incidents, listing[u], listing[n]);
      }
      if relevance.Some? { InOrderAppend(incidents, c, Match(last, relevance.value)); }
    }
  }

  /** No other candidate is preferred, and of equally good ones the match is listed first. */
  ghost predicate Wins(incidents: seq<Incident>, m: Match, i: nat)
    requires m.incident < |incidents| && i < |incidents|
  {
    || incidents[m.incident].updatedAt > incidents[i].updatedAt
    || (incidents[m.incident].updatedAt == incidents[i].updatedAt
        && (m.incident == i || Before(incidents, m.incident, i)))
  }

  lemma MatchWins(signal: Signal, incidents: seq<Incident>, edges: seq<Edge>, i: nat)
    requires i < |incidents| && FindMatch(signal, incidents, edges).Some?
    requires Relevance(signal, incidents[i], edges) == Some(FindMatch(signal, incidents, edges).value.score)
    ensures Wins(incidents, FindMatch(signal, incidents, edges).value, i)
  {
    var listing := ListIncidents(incidents);
    var c := Candidates(signal, incidents, edges, listing);
    ListingIsNewestFirst(incidents);
    CandidatesInOrder(signal, incidents, edges, listing);
    CandidatesComplete(signal, incidents, edges, listing, i);
    BestWins(incidents, c, Match(i, Best(incidents, c).score));
  }

  lemma BestWins(incidents: seq<Incident>, c: seq<Match>, m: Match)
    requires InOrder(incidents, c) && m in c
    requires (forall x :: x in c ==> x.incident < |incidents|) && m.score == Best(incidents, c).score
    ensures Wins(incidents, Best(incidents, c), m.incident)
  {
    BestIsUnbeaten(incidents, c);
    var best := Best(incidents, c);
    var k :| 0 <= k < |c| && c[k] == best
             && (forall j :: 0 <= j < |c| ==> !Beats(incidents, c[j], best))
             && (forall j :: 0 <= j < k ==> Beats(incidents, best, c[j]));
    var j :| 0 <= j < |c| && c[j] == m;
    if j > k { assert Before(incidents, c[k].incident, c[j].incident); }
  }

  /** An incident of the signal's own asset is taken before one of a neighbour; among those of one kind the
    * most recently updated, and among these the one listed first. With neither there is no match.
    */
  lemma MatchPrefersOwnAsset(signal: Signal, incidents: seq<Incident>, edges: seq<Edge>)
    ensures var r := FindMatch(signal, incidents, edges);
            && (r.Some? ==> r.value.incident < |incidents|)
            && ((exists i :: OfOwnAsset(signal, incidents, i)) ==>
                  && r.Some? && r.value.score == 1.0 && OfOwnAsset(signal, incidents, r.value.incident)
                  && forall i :: OfOwnAsset(signal, incidents, i) ==> Wins(incidents, r.value, i))
            && (!(exists i :: OfOwnAsset(signal, incidents, i)) ==>
                  if exists i :: OfNeighbour(signal, incidents, edges, i) then
                    && r.Some? && r.value.score == 0.7 && OfNeighbour(signal, incidents, edges, r.value.incident)
                    && forall i :: OfNeighbour(signal, incidents, edges, i) ==> Wins(incidents, r.value, i)
                  else r.None?)
  {
    var r := FindMatch(signal, incidents, edges);
    MatchIsBest(signal, incidents, edges);
    forall i: nat | i < |incidents|
      ensures Relevance(signal, incidents[i], edges) == Some(1.0) <==> OfOwnAsset(signal, incidents, i)
      ensures Relevance(signal, incidents[i], edges) == Some(0.7) <==> OfNeighbour(signal, incidents, edges, i)
      ensures Relevance(signal, incidents[i], edges) in {None, Some(0.7), Some(1.0)}
    {
      RelevanceMeans(signal, incidents, edges, i);
    }
    if r.Some? {
      forall i: nat | i < |incidents| && Relevance(signal, incidents[i], edges) == Some(r.value.score)
        ensures Wins(incidents, r.value, i)
      {
        MatchWins(signal, incidents, edges, i);
      }
      if i :| OfOwnAsset(signal, incidents, i) {
        assert !Beats(incidents, Match(i, 1.0), r.value);
      }
    }
  }

  method CandidatesByLoop(signal: Signal, incidents: seq<Incident>, edges: seq<Edge>) returns (candidates: seq<Match>)
    ensures candidates == Candidates(signal, incidents, edges, ListIncidents(incidents))
  {
    var listing := ListIncidents(incidents);
    candidates := [];
    for n := 0 to |listing|
      invariant candidates == Candidates(signal, incidents, edges, listing[..n])
    {
      assert listing[..n + 1][..n] == listing[..n];
      var incident := incidents[listing[n]];
      if incident.status in {Open, Investigating, WaitingApproval}
         && Abs(signal.occurredAt - incident.updatedAt) <= CORRELATION_WINDOW {
        if incident.assetId == signal.assetId {
          candidates := candidates + [Match(listing[n], 1.0)];
        } else if Adjacent(edges, incident.assetId, signal.assetId) {
          candidates := candidates + [Match(listing[n], 0.7)];
        }
      }
    }
    assert listing[..|listing|] == listing;
  }

  method BestByLoop(incidents: seq<Incident>, candidates: seq<Match>) returns (best: Match)
    requires candidates != [] && forall m :: m in candidates ==> m.incident < |incidents|
    ensures best == Best(incidents, candidates)
  {
    best := candidates[0];
    for n := 1 to |candidates|
      invariant best == Best(incidents, candidates[..n])
    {
      assert candidates[..n + 1][..n] == candidates[..n];
      if Beats(incidents, candidates[n], best) {
        best := candidates[n];
      }
    }
    assert candidates[..|candidates|] == candidates;
  }

  /** The service's loops: collect candidates in listing order, then keep the first maximum. */
  method FindMatchByLoops(signal: Signal, incidents: seq<Incident>, edges: seq<Edge>) returns (r: Option<Match>)
    ensures r == FindMatch(signal, incidents, edges)
  {
    var candidates := CandidatesByLoop(signal, incidents, edges);
    if candidates == [] {
      return None;
    }
    var best := BestByLoop(incidents, candidates);
    r := Some(best);
  }

  // ---- change events -----------------------------------------------------------------------

  datatype ChangeEvent = ChangeEvent(id: string, service: string, occurredAt: int)

  /** The repository keeps one event per id. */
  type ChangeLog = s: seq<ChangeEvent> | forall i, j :: 0 <= i < j < |s| ==> s[i].id != s[j].id
    witness []

  predicate Precedes(signal: Signal, event: ChangeEvent) {
    event.service == signal.assetId && 0 <= signal.occurredAt - event.occurredAt <= CHANGE_WINDOW
  }

  function Preceding(signal: Signal, events: seq<ChangeEvent>): seq<ChangeEvent> {
    if events == [] then []
    else
      Preceding(signal, events[..|events| - 1])
      + if Precedes(signal, events[|events| - 1]) then [events[|events| - 1]] else []
  }

  function OccurredAt(): ChangeEvent -> real {
    (e: ChangeEvent) => e.occurredAt as real
  }

  function Cite(signal: Signal, event: ChangeEvent): Evidence {
    Evidence("change_event", ChangeQuery(event.id), event.occurredAt, signal.occurredAt)
  }

  /** The newest three changes of the signal's asset in the half hour before it. */
  function Cited(signal: Signal, events: ChangeLog): seq<ChangeEvent> {
    var sorted := Descending(Preceding(signal, events), OccurredAt());
    if |sorted| <= 3 then sorted else sorted[..3]
  }

  function ChangeEvidence(signal: Signal, events: ChangeLog): (r: seq<Evidence>)
    ensures |r| == |Cited(signal, events)|
            && forall i :: 0 <= i < |r| ==> r[i] == Cite(signal, Cited(signal, events)[i])
  {
    seq(|Cited(signal, events)|, i requires 0 <= i < |Cited(signal, events)| => Cite(signal, Cited(signal, events)[i]))
  }

  lemma {:induction false} PrecedingSelects(signal: Signal, events: seq<ChangeEvent>)
    ensures forall e :: e in Preceding(signal, events) <==> e in events && Precedes(signal, e)
    ensures forall e :: multiset(Preceding(signal, events))[e] <= multiset(events)[e]
  {
    if events != [] {
      var n := |events| - 1;
      PrecedingSelects(signal, events[..n]);
      assert events == events[..n] + [events[n]];
    }
  }

  lemma {:induction false} DistinctIdsOnce(events: seq<ChangeEvent>, e: ChangeEvent)
    requires forall i, j :: 0 <= i < j < |events| ==> events[i].id != events[j].id
    ensures multiset(events)[e] <= 1
  {
    if events != [] {
      var n := |events| - 1;
      DistinctIdsOnce(events[..n], e);
      assert events == events[..n] + [events[n]];
      forall i | 0 <= i < n ensures events[..n][i] != events[n] {
        assert events[i].id != events[n].id;
      }
    }
  }

  lemma OnceMeansDistinct(s: seq<ChangeEvent>, i: int, j: int)
    requires 0 <= i < j < |s| && multiset(s)[s[i]] <= 1
    ensures s[i] != s[j]
  {
    assert s == s[..j] + [s[j]] + s[j + 1..];
    assert s[i] in s[..j];
  }

  lemma SameIdSameEvent(events: ChangeLog, a: ChangeEvent, b: ChangeEvent)
    requires a in events && b in events
    ensures a.id == b.id ==> a == b
  {
    var i :| 0 <= i < |events| && events[i] == a;
    var j :| 0 <= j < |events| && events[j] == b;
    assert events[i].id == a.id && events[j].id == b.id;
  }

  lemma CitedOnce(signal: Signal, events: ChangeLog)
    ensures var cited := Cited(signal, events); forall i, j :: 0 <= i < j < |cited| ==> cited[i].id != cited[j].id
    ensures var cited := Cited(signal, events); forall e :: e in cited ==> e in events && Precedes(signal, e)
  {
    var matched := Preceding(signal, events);
    var sorted := Descending(matched, OccurredAt());
    var cited := Cited(signal, events);
    PrecedingSelects(signal, events);
    DescendingSorts(matched, OccurredAt());
    SameMembers(matched, OccurredAt());
    forall e | e in cited ensures e in sorted {}
    forall i, j | 0 <= i < j < |cited| ensures cited[i].id != cited[j].id {
      DistinctIdsOnce(events, sorted[i]);
      assert multiset(sorted)[sorted[i]] <= multiset(events)[sorted[i]];
      OnceMeansDistinct(sorted, i, j);
      assert sorted[i] in sorted && sorted[j] in sorted;
      SameIdSameEvent(events, sorted[i], sorted[j]);
    }
  }

  /** At most three citations, all of changes that preceded the signal, no change twice, and no
    * change left out that is newer than one cited.
    */
  lemma CitationsAreNewest(signal: Signal, events: ChangeLog)
    ensures var cited := Cited(signal, events);
            && |cited| <= 3
            && (forall e :: e in cited ==> e in events && Precedes(signal, e))
            && (forall i, j :: 0 <= i < j < |cited| ==> cited[i].id != cited[j].id)
            && (forall e :: e in events && Precedes(signal, e) && e !in cited ==>
                  |cited| == 3 && forall i :: 0 <= i < 3 ==> cited[i].occurredAt >= e.occurredAt)
  {
    CitedOnce(signal, events);
    var cited := Cited(signal, events);
    forall e | e in events && Precedes(signal, e) && e !in cited
      ensures |cited| == 3 && forall i :: 0 <= i < 3 ==> cited[i].occurredAt >= e.occurredAt
    {
      UncitedIsOlder(signal, events, e);
    }
  }

  lemma UncitedIsOlder(signal: Signal, events: ChangeLog, e: ChangeEvent)
    requires e in events && Precedes(signal, e) && e !in Cited(signal, events)
    ensures var cited := Cited(signal, events);
            |cited| == 3 && forall i :: 0 <= i < 3 ==> cited[i].occurredAt >= e.occurredAt
  {
    var matched := Preceding(signal, events);
    var sorted := Descending(matched, OccurredAt());
    PrecedingSelects(signal, events);
    DescendingSorts(matched, OccurredAt());
    SameMembers(matched, OccurredAt());
    assert e in sorted;
    var k :| 0 <= k < |sorted| && sorted[k] == e;
    forall m | 0 <= m < 3 && m < |sorted| ensures sorted[m] in Cited(signal, events) {
      assert sorted[m] == Cited(signal, events)[m];
    }
    forall i | 0 <= i < 3 ensures Cited(signal, events)[i].occurredAt >= e.occurredAt {
      assert OccurredAt()(sorted[i]) >= OccurredAt()(sorted[k]);
    }
  }

  /** A change of the signal's own asset, in the half hour before the signal. */
  ghost predicate HalfHourBefore(signal: Signal, event: ChangeEvent) {
    event.service == signal.assetId && event.occurredAt <= signal.occurredAt <= event.occurredAt + 1800000
  }

  /** The evidence names the change and spans the time from it to the signal. */
  ghost predicate Names(e: Evidence, signal: Signal, event: ChangeEvent) {
    && e.source == "change_event" && e.query == "change_event_id=" + event.id
    && e.startedAt == event.occurredAt && e.endedAt == signal.occurredAt
  }

  /** The evidence names the newest three changes of the signal's own asset in the half hour before it, or
    * as many as there are, newest first.
    */
  lemma EvidenceIsOfNewestChanges(signal: Signal, events: ChangeLog)
    ensures var r := ChangeEvidence(signal, events);
            && |r| <= 3
            && (forall i :: 0 <= i < |r| ==>
                  exists e :: e in events && HalfHourBefore(signal, e) && Names(r[i], signal, e))
            && (forall i, j :: 0 <= i < j < |r| ==> r[i].query != r[j].query && r[i].startedAt >= r[j].startedAt)
            && (forall e :: e in events && HalfHourBefore(signal, e) ==>
                  || (exists i :: 0 <= i < |r| && Names(r[i], signal, e))
                  || (|r| == 3 && r[2].startedAt >= e.occurredAt))
  {
    CitationsAreNewest(signal, events);
    var cited, r := Cited(signal, events), ChangeEvidence(signal, events);
    forall i | 0 <= i < |r| ensures exists e :: e in events && HalfHourBefore(signal, e) && Names(r[i], signal, e) {
      assert cited[i] in cited && Names(r[i], signal, cited[i]);
    }
    NeverAscends(Preceding(signal, events), OccurredAt());
    var sorted := Descending(Preceding(signal, events), OccurredAt());
    forall i, j | 0 <= i < j < |r| ensures r[i].query != r[j].query && r[i].startedAt >= r[j].startedAt {
      ChangeQueryInjective(cited[i].id, cited[j].id);
      assert OccurredAt()(sorted[i]) >= OccurredAt()(sorted[j]);
    }
    forall e | e in events && HalfHourBefore(signal, e) && e in cited ensures exists i :: 0 <= i < |r|
                                                                                && Names(r[i], signal, e) {
      var i :| 0 <= i < |cited| && cited[i] == e;
      assert Names(r[i], signal, e);
    }
  }

  method ChangeEvidenceByLoops(signal: Signal, events: ChangeLog) returns (evidence: seq<Evidence>)
    ensures evidence == ChangeEvidence(signal, events)
  {
    var matched: seq<ChangeEvent> := [];
    for n := 0 to |events|
      invariant matched == Preceding(signal, events[..n])
    {
      assert events[..n + 1][..n] == events[..n];
      var age := signal.occurredAt - events[n].occurredAt;
      if events[n].service == signal.assetId && 0 <= age <= CHANGE_WINDOW {
        matched := matched + [events[n]];
      }
    }
    assert events[..|events|] == events;
    var sorted := Descending(matched, OccurredAt());
    evidence := [];
    var count := if |sorted| <= 3 then |sorted| else 3;
    for n := 0 to count
      invariant |evidence| == n && forall i :: 0 <= i < n ==> evidence[i] == Cite(signal, sorted[i])
    {
      evidence := evidence + [Cite(signal, sorted[n])];
    }
  }
}
