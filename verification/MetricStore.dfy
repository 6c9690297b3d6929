/** The control plane's latest metrics: one value per name and label set, and per agent instance the
  * highest batch number taken in.
  */
module MetricStore {
  import opened CanonicalArguments

  /** A label mapping, as the ascending listing that stands for it. */
  type Labels = s: seq<Entry> | Ascending(s) witness []

  /** `value` is the sample's number as the exporter spells it. */
  datatype Metric = Metric(name: string, labels: Labels, value: string, collectedAt: int)

  type Key = (string, Labels)

  /** A node and the instance id its agent process drew at start. */
  type Agent = (string, string)

  /** `owners` are the nodes its assets name as theirs. */
  datatype Batch = Batch(agent: Agent, number: nat, metrics: seq<Metric>, owners: seq<string>)

  datatype Contents = Contents(metrics: map<Key, Metric>, sequences: map<Agent, nat>)

  function KeyOf(m: Metric): Key {
    (m.name, m.labels)
  }

  function Highest(c: Contents, agent: Agent): nat {
    if agent in c.sequences then c.sequences[agent] else 0
  }

  /** Unregistered names are skipped, later metrics replace earlier ones. */
  function Write(registered: set<string>, stored: map<Key, Metric>, metrics: seq<Metric>): map<Key, Metric> {
    if metrics == [] then stored
    else
      var m := metrics[|metrics| - 1];
      var earlier := Write(registered, stored, metrics[..|metrics| - 1]);
      if m.name in registered then earlier[KeyOf(m) := m] else earlier
  }

  function Accept(registered: set<string>, c: Contents, batch: Batch): (Contents, bool) {
    if batch.number <= Highest(c, batch.agent) then (c, false)
    else (Contents(Write(registered, c.metrics, batch.metrics), c.sequences[batch.agent := batch.number]), true)
  }

  // ---- last writer -------------------------------------------------------------------------

  /** All metrics of the batches, in order. */
  function Flatten(batches: seq<Batch>): seq<Metric> {
    if batches == [] then [] else Flatten(batches[..|batches| - 1]) + batches[|batches| - 1].metrics
  }

  ghost predicate IsLast(registered: set<string>, metrics: seq<Metric>, key: Key, i: int) {
    && 0 <= i < |metrics| && KeyOf(metrics[i]) == key && key.0 in registered
    && forall j :: i < j < |metrics| ==> KeyOf(metrics[j]) != key
  }

  /** The key's last metric is this one. */
  ghost predicate Written(registered: set<string>, metrics: seq<Metric>, key: Key, value: Metric) {
    exists i :: IsLast(registered, metrics, key, i) && value == metrics[i]
  }

  lemma {:induction false} WriteConcat(registered: set<string>, stored: map<Key, Metric>, a: seq<Metric>,
                                       b: seq<Metric>)
    ensures Write(registered, stored, a + b) == Write(registered, Write(registered, stored, a), b)
  {
    if b == [] {
      assert a + b == a;
    } else {
      assert (a + b)[..|a + b| - 1] == a + b[..|b| - 1];
      WriteConcat(registered, stored, a, b[..|b| - 1]);
    }
  }

  /** Writing keeps, for each registered key written, its last metric, and nothing unregistered. */
  lemma {:induction false} WriteKeepsLast(registered: set<string>, metrics: seq<Metric>)
    ensures forall k :: k in Write(registered, map[], metrics) ==>
              Written(registered, metrics, k, Write(registered, map[], metrics)[k])
    ensures forall k, i :: IsLast(registered, metrics, k, i) ==>
              k in Write(registered, map[], metrics) && Write(registered, map[], metrics)[k] == metrics[i]
  {
    if metrics != [] {
      var n := |metrics| - 1;
      var front, last := metrics[..n], metrics[n];
      WriteKeepsLast(registered, front);
      var earlier, m := Write(registered, map[], front), Write(registered, map[], metrics);
      forall k, i | IsLast(registered, metrics, k, i) ensures k in m && m[k] == metrics[i] {
        if i < n { assert IsLast(registered, front, k, i); }
      }
      forall k | k in m ensures Written(registered, metrics, k, m[k]) {
        if k == KeyOf(last) && k.0 in registered {
          assert IsLast(registered, metrics, k, n);
        } else {
          assert Written(registered, front, k, earlier[k]);
          var i :| IsLast(registered, front, k, i) && earlier[k] == front[i];
          assert IsLast(registered, metrics, k, i);
        }
      }
    }
  }

  /** Every stored metric is kept under its own key and is registered. */
  ghost predicate Consistent(registered: set<string>, stored: map<Key, Metric>) {
    forall k :: k in stored ==> KeyOf(stored[k]) == k && k.0 in registered
  }

  lemma {:induction false} WriteConsistent(registered: set<string>, metrics: seq<Metric>)
    ensures Consistent(registered, Write(registered, map[], metrics))
  {
    if metrics != [] { WriteConsistent(registered, metrics[..|metrics| - 1]); }
  }

  // ---- the store ---------------------------------------------------------------------------

  class AgentMetricStore {
    const registered: set<string>
    var metrics: map<Key, Metric>
    var sequences: map<Agent, nat>

    constructor (registered: set<string>)
      ensures this.registered == registered && Value() == Contents(map[], map[])
    {
      this.registered := registered;
      metrics, sequences := map[], map[];
    }

    function Value(): Contents
      reads this
    {
      Contents(metrics, sequences)
    }

    method AcceptBatch(batch: Batch) returns (accepted: bool)
      modifies this
      ensures (Value(), accepted) == Accept(registered, old(Value()), batch)
    {
      if batch.number <= (if batch.agent in sequences then sequences[batch.agent] else 0) {
        return false;
      }
      for i := 0 to |batch.metrics|
        invariant metrics == Write(registered, old(metrics), batch.metrics[..i]) && sequences == old(sequences)
      {
        assert batch.metrics[..i + 1][..i] == batch.metrics[..i];
        var metric := batch.metrics[i];
        if metric.name in registered {
          metrics := metrics[KeyOf(metric) := metric];
        }
      }
      assert batch.metrics[..|batch.metrics|] == batch.metrics;
      sequences := sequences[batch.agent := batch.number];
      accepted := true;
    }
  }
}
