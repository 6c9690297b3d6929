/** The telemetry stream from agents to the gateway: connections come and go, acknowledgements get
  * lost, and batches of a dead connection may still be processed late. The server is not restarted.
  */
module TelemetryStream {
  import opened Outcomes
  import opened CanonicalArguments
  import opened MetricStore

  datatype Frame = Hello | Telemetry(number: nat, metrics: seq<Metric>, owners: seq<string>)

  /** Why the gateway ended a stream. */
  datatype Abort = RepeatedHello | HelloMissing | IdentityRefused | IngestFailed

  /** One connection: frames on their way up, the gateway's `node`, acknowledgements on their way down. */
  datatype Stream = Stream(agent: Agent, up: seq<Frame>, bound: bool, acks: seq<nat>, aborted: Option<Abort>)

  /** `stream` is the live connection; an awaiting client has sent a batch and blocks for its answer. */
  datatype Client = Client(sequence: nat, stream: Option<nat>, awaiting: bool)

  datatype State = State(
    clients: map<Agent, Client>,
    streams: seq<Stream>,
    store: Contents,
    sent: seq<Batch>,
    applied: seq<Batch>)

  datatype Event =
    | Start(agent: Agent)
    | Connect(agent: Agent)
    | Send(agent: Agent, metrics: seq<Metric>, owners: seq<string>)
    | Deliver(stream: nat, refused: bool)
    | Receive(agent: Agent)
    | Lose(agent: Agent)
    | Cut(stream: nat, kept: nat)

  const INITIAL := State(map[], [], Contents(map[], map[]), [], [])

  /** The client's reaction to an acknowledgement. */
  function Advance(sequence: nat, acknowledged: nat): nat {
    if acknowledged >= sequence then acknowledged + 1 else sequence
  }

  /** Some asset of the batch names another node than the one whose stream it came on. */
  predicate Foreign(batch: Batch) {
    exists o :: o in batch.owners && o != batch.agent.0
  }

  function BatchOf(stream: Stream, frame: Frame): Batch
    requires frame.Telemetry?
  {
    Batch(stream.agent, frame.number, frame.metrics, frame.owners)
  }

  /** The gateway handles the first frame of a stream. `refused` stands for a certificate that does not
    * match the hello. A foreign asset is noticed only after the batch was recorded.
    */
  function Handle(registered: set<string>, s: State, k: nat, refused: bool): State
    requires k < |s.streams| && s.streams[k].up != []
  {
    var stream := s.streams[k];
    var rest := stream.(up := stream.up[1..]);
    match stream.up[0]
    case Hello =>
      var after :=
        if stream.bound then rest.(aborted := Some(RepeatedHello))
        else if refused then rest.(aborted := Some(IdentityRefused))
        else rest.(bound := true);
      s.(streams := s.streams[k := after])
    case Telemetry(number, metrics, owners) =>
      if !stream.bound then s.(streams := s.streams[k := rest.(aborted := Some(HelloMissing))])
      else
        var batch := Batch(stream.agent, number, metrics, owners);
        var (store, accepted) := Accept(registered, s.store, batch);
        var after :=
          if accepted && Foreign(batch) then rest.(aborted := Some(IngestFailed))
          else rest.(acks := rest.acks + [number]);
        var applied := if accepted then s.applied + [batch] else s.applied;
        s.(streams := s.streams[k := after], store := store, applied := applied)
  }

  /** The stream is its client's current connection. */
  predicate Live(s: State, k: nat)
    requires k < |s.streams|
  {
    s.streams[k].agent in s.clients && s.clients[s.streams[k].agent].stream == Some(k)
  }

  /** One step; `Cut` drops the tail of what a dead connection still had to deliver. */
  function Step(registered: set<string>, s: State, e: Event): State {
    match e
    case Start(a) =>
      if a in s.clients then s else s.(clients := s.clients[a := Client(1, None, false)])
    case Connect(a) =>
      if a !in s.clients || s.clients[a].stream.Some? then s
      else
        s.(clients := s.clients[a := s.clients[a].(stream := Some(|s.streams|), awaiting := false)],
           streams := s.streams + [Stream(a, [Hello], false, [], None)])
    case Send(a, metrics, owners) =>
      if a !in s.clients || s.clients[a].awaiting || s.clients[a].stream.None?
          || s.clients[a].stream.value >= |s.streams| then s
      else
        var c, k := s.clients[a], s.clients[a].stream.value;
        s.(clients := s.clients[a := c.(awaiting := true)],
           streams := s.streams[k := s.streams[k].(up := s.streams[k].up + [Telemetry(c.sequence, metrics, owners)])],
           sent := s.sent + [Batch(a, c.sequence, metrics, owners)])
    case Deliver(k, refused) =>
      if k >= |s.streams| || s.streams[k].aborted.Some? || s.streams[k].up == [] then s
      else Handle(registered, s, k, refused)
    case Receive(a) =>
      if a !in s.clients || !s.clients[a].awaiting || s.clients[a].stream.None?
          || s.clients[a].stream.value >= |s.streams|
         || s.streams[s.clients[a].stream.value].acks == [] then s
      else
        var c, k := s.clients[a], s.clients[a].stream.value;
        s.(clients := s.clients[a := c.(sequence := Advance(c.sequence, s.streams[k].acks[0]), awaiting := false)],
           streams := s.streams[k := s.streams[k].(acks := s.streams[k].acks[1..])])
    case Lose(a) =>
      if a !in s.clients then s else s.(clients := s.clients[a := s.clients[a].(stream := None, awaiting := false)])
    case Cut(k, kept) =>
      if k >= |s.streams| || kept > |s.streams[k].up| || Live(s, k) then s
      else s.(streams := s.streams[k := s.streams[k].(up := s.streams[k].up[..kept])])
  }

  function Run(registered: set<string>, es: seq<Event>): State {
    if es == [] then INITIAL else Step(registered, Run(registered, es[..|es| - 1]), es[|es| - 1])
  }

  // ---- the invariant -----------------------------------------------------------------------

  /** Hello is the first frame of a stream and the only one of its kind. */
  ghost predicate WellOpened(stream: Stream) {
    && (forall i :: 0 <= i < |stream.up| && stream.up[i].Hello? ==> i == 0 && !stream.bound)
    && (stream.aborted.None? && !stream.bound && stream.up != [] ==> stream.up[0].Hello?)
    && (stream.aborted.Some? ==> stream.aborted.value.IdentityRefused? || stream.aborted.value.IngestFailed?)
  }

  /** Nothing in a stream is ahead of its client, and no acknowledgement ahead of the store. */
  ghost predicate Behind(s: State, stream: Stream) {
    && stream.agent in s.clients
    && (forall i :: 0 <= i < |stream.up| && stream.up[i].Telemetry? ==>
          stream.up[i].number <= s.clients[stream.agent].sequence
          && BatchOf(stream, stream.up[i]) in s.sent)
    && (forall i :: 0 <= i < |stream.acks| ==> stream.acks[i] <= Highest(s.store, stream.agent))
  }

  /** On a live connection only the batch just sent, or its acknowledgement, is under way. */
  ghost predicate InStep(c: Client, stream: Stream) {
    && (forall i :: 0 <= i < |stream.up| && stream.up[i].Telemetry? ==>
          c.awaiting && i == |stream.up| - 1 && stream.acks == [] && stream.up[i].number == c.sequence)
    && (stream.acks != [] ==> c.awaiting && stream.acks == [c.sequence])
    && (stream.aborted.None? && !stream.bound ==> stream.up != [])
  }

  ghost predicate ClientFits(s: State, a: Agent)
    requires a in s.clients
  {
    var c := s.clients[a];
    && (c.sequence == Highest(s.store, a) || c.sequence == Highest(s.store, a) + 1)
    && (c.stream.Some? ==>
          c.stream.value < |s.streams| && s.streams[c.stream.value].agent == a && InStep(c, s.streams[c.stream.value]))
    && (c.awaiting ==> c.stream.Some?)
  }

  /** The batches of one agent among those applied. */
  function Of(batches: seq<Batch>, a: Agent): seq<Batch> {
    if batches == [] then []
    else Of(batches[..|batches| - 1], a) + if batches[|batches| - 1].agent == a then [batches[|batches| - 1]] else []
  }

  /** Applied batches of an agent are numbered 1, 2, 3 and so on up to the stored maximum. */
  ghost predicate Numbered(s: State, a: Agent) {
    && |Of(s.applied, a)| == Highest(s.store, a)
    && forall i :: 0 <= i < |Of(s.applied, a)| ==> Of(s.applied, a)[i].number == i + 1
  }

  ghost predicate Invariant(registered: set<string>, s: State) {
    && (forall k :: 0 <= k < |s.streams| ==> WellOpened(s.streams[k]) && Behind(s, s.streams[k]))
    && (forall a :: a in s.clients ==> ClientFits(s, a))
    && (forall a :: a !in s.clients ==> a !in s.store.sequences)
    && (forall a :: Numbered(s, a))
    && s.store.metrics == Write(registered, map[], Flatten(s.applied))
    && (forall b :: b in s.applied ==> b in s.sent)
  }

  lemma OfAppend(batches: seq<Batch>, b: Batch, a: Agent)
    ensures Of(batches + [b], a) == Of(batches, a) + if b.agent == a then [b] else []
  {
    assert (batches + [b])[..|batches|] == batches;
  }

  lemma FlattenAppend(batches: seq<Batch>, b: Batch)
    ensures Flatten(batches + [b]) == Flatten(batches) + b.metrics
  {
    assert (batches + [b])[..|batches|] == batches;
  }

  /** A batch the store takes in is the client's current one, and the next of its agent. */
  lemma AcceptedIsNext(registered: set<string>, s: State, k: nat)
    requires Invariant(registered, s) && k < |s.streams| && s.streams[k].up != [] && s.streams[k].up[0].Telemetry?
    requires s.streams[k].up[0].number > Highest(s.store, s.streams[k].agent)
    ensures s.streams[k].up[0].number == Highest(s.store, s.streams[k].agent) + 1
            == s.clients[s.streams[k].agent].sequence
  {
    assert Behind(s, s.streams[k]) && ClientFits(s, s.streams[k].agent);
  }

  ghost predicate Handles(registered: set<string>, s: State, k: nat) {
    Invariant(registered, s) && k < |s.streams| && s.streams[k].up != [] && s.streams[k].aborted.None?
  }

  /** The maximum of an agent never falls, and rises only to its client's counter. */
  lemma HandleRaises(registered: set<string>, s: State, k: nat, refused: bool)
    requires Handles(registered, s, k)
    ensures var s' := Handle(registered, s, k, refused);
            forall a :: a in s.clients ==>
              Highest(s'.store, a) == Highest(s.store, a)
              || (Highest(s'.store, a) == Highest(s.store, a) + 1 == s.clients[a].sequence)
    ensures var s' := Handle(registered, s, k, refused);
            s.streams[k].up[0].Telemetry? ==> s.streams[k].up[0].number <= Highest(s'.store, s.streams[k].agent)
  {
    if s.streams[k].up[0].Telemetry? && s.streams[k].up[0].number > Highest(s.store, s.streams[k].agent) {
      AcceptedIsNext(registered, s, k);
    }
  }

  lemma HandleKeepsStreams(registered: set<string>, s: State, k: nat, refused: bool)
    requires Handles(registered, s, k)
    ensures var s' := Handle(registered, s, k, refused);
            forall j :: 0 <= j < |s'.streams| ==> WellOpened(s'.streams[j]) && Behind(s', s'.streams[j])
  {
    var s' := Handle(registered, s, k, refused);
    assert WellOpened(s.streams[k]) && Behind(s, s.streams[k]);
    HandleRaises(registered, s, k, refused);
    forall j | 0 <= j < |s'.streams| ensures WellOpened(s'.streams[j]) && Behind(s', s'.streams[j]) {
      assert WellOpened(s.streams[j]) && Behind(s, s.streams[j]);
      if j == k {
        forall i | 0 <= i < |s'.streams[k].up| ensures s'.streams[k].up[i] == s.streams[k].up[i + 1] {}
      }
    }
  }

  lemma HandleKeepsClients(registered: set<string>, s: State, k: nat, refused: bool)
    requires Handles(registered, s, k)
    ensures var s' := Handle(registered, s, k, refused); forall a :: a in s'.clients ==> ClientFits(s', a)
  {
    var s' := Handle(registered, s, k, refused);
    HandleRaises(registered, s, k, refused);
    assert WellOpened(s.streams[k]) && Behind(s, s.streams[k]);
    forall a | a in s.clients ensures ClientFits(s', a) {
      assert ClientFits(s, a);
      if s.clients[a].stream == Some(k) {
        assert s.streams[k].agent == a;
        HandleKeepsInStep(registered, s, k, refused, s.clients[a]);
      }
    }
  }

  lemma HandleKeepsInStep(registered: set<string>, s: State, k: nat, refused: bool, c: Client)
    requires Handles(registered, s, k) && InStep(c, s.streams[k])
    ensures InStep(c, Handle(registered, s, k, refused).streams[k])
  {
    var before, after := s.streams[k], Handle(registered, s, k, refused).streams[k];
    assert WellOpened(before);
    forall i | 0 <= i < |after.up| ensures after.up[i] == before.up[i + 1] {}
  }

  lemma AppliedBatch(registered: set<string>, s: State, s': State, batch: Batch)
    requires (forall a :: Numbered(s, a)) && s.store.metrics == Write(registered, map[], Flatten(s.applied))
    requires batch.number == Highest(s.store, batch.agent) + 1
    requires s'.applied == s.applied + [batch] && s'.store == Accept(registered, s.store, batch).0
    ensures (forall a :: Numbered(s', a)) && s'.store.metrics == Write(registered, map[], Flatten(s'.applied))
  {
    FlattenAppend(s.applied, batch);
    WriteConcat(registered, map[], Flatten(s.applied), batch.metrics);
    forall a ensures Numbered(s', a) { assert Numbered(s, a); OfAppend(s.applied, batch, a); }
  }

  lemma HandleKeepsApplied(registered: set<string>, s: State, k: nat, refused: bool)
    requires Handles(registered, s, k)
    ensures var s' := Handle(registered, s, k, refused);
            && (forall a :: Numbered(s', a)) && s'.store.metrics == Write(registered, map[], Flatten(s'.applied))
            && (forall b :: b in s'.applied ==> b in s'.sent)
            && (forall a :: a !in s'.clients ==> a !in s'.store.sequences)
  {
    var s' := Handle(registered, s, k, refused);
    var stream := s.streams[k];
    assert WellOpened(stream) && Behind(s, stream);
    if stream.up[0].Telemetry? && stream.up[0].number > Highest(s.store, stream.agent) {
      AcceptedIsNext(registered, s, k);
      AppliedBatch(registered, s, s', BatchOf(stream, stream.up[0]));
    } else {
      forall a ensures Numbered(s', a) { assert Numbered(s, a); }
    }
  }

  lemma StepKeepsInvariant(registered: set<string>, s: State, e: Event)
    requires Invariant(registered, s)
    ensures Invariant(registered, Step(registered, s, e))
  {
    var s' := Step(registered, s, e);
    if e.Deliver? {
      if s' != s {
        HandleKeepsStreams(registered, s, e.stream, e.refused);
        HandleKeepsClients(registered, s, e.stream, e.refused);
        HandleKeepsApplied(registered, s, e.stream, e.refused);
      }
    } else {
      QuietStepKeeps(registered, s, e);
    }
  }

  /** Steps that leave the store alone. */
  lemma QuietStepKeeps(registered: set<string>, s: State, e: Event)
    requires Invariant(registered, s) && !e.Deliver?
    ensures Invariant(registered, Step(registered, s, e))
  {
    var s' := Step(registered, s, e);
    forall a ensures Numbered(s', a) { assert Numbered(s, a); }
    forall k | 0 <= k < |s'.streams| ensures WellOpened(s'.streams[k]) && Behind(s', s'.streams[k]) {
      if k < |s.streams| { assert WellOpened(s.streams[k]) && Behind(s, s.streams[k]); }
      QuietKeepsStream(registered, s, e, k);
    }
    forall a | a in s'.clients ensures ClientFits(s', a) { QuietKeepsClient(registered, s, e, a); }
  }

  lemma QuietKeepsStream(registered: set<string>, s: State, e: Event, k: nat)
    requires Invariant(registered, s) && !e.Deliver? && k < |Step(registered, s, e).streams|
    ensures var s' := Step(registered, s, e); WellOpened(s'.streams[k]) && Behind(s', s'.streams[k])
  {
    if e.Send? {
      SendKeepsStream(registered, s, e, k);
    } else if e.Receive? {
      ReceiveKeepsStream(registered, s, e, k);
    } else if k < |s.streams| {
      assert WellOpened(s.streams[k]) && Behind(s, s.streams[k]);
    }
  }

  lemma ReceiveKeepsStream(registered: set<string>, s: State, e: Event, k: nat)
    requires Invariant(registered, s) && e.Receive? && k < |Step(registered, s, e).streams|
    ensures var s' := Step(registered, s, e); WellOpened(s'.streams[k]) && Behind(s', s'.streams[k])
  {
    assert WellOpened(s.streams[k]) && Behind(s, s.streams[k]);
    if e.agent in s.clients { assert ClientFits(s, e.agent); }
  }

  lemma SendKeepsStream(registered: set<string>, s: State, e: Event, k: nat)
    requires Invariant(registered, s) && e.Send? && k < |Step(registered, s, e).streams|
    ensures var s' := Step(registered, s, e); WellOpened(s'.streams[k]) && Behind(s', s'.streams[k])
  {
    assert WellOpened(s.streams[k]) && Behind(s, s.streams[k]);
    if e.agent in s.clients { assert ClientFits(s, e.agent); }
  }

  lemma QuietKeepsClient(registered: set<string>, s: State, e: Event, a: Agent)
    requires Invariant(registered, s) && !e.Deliver? && a in Step(registered, s, e).clients
    ensures ClientFits(Step(registered, s, e), a)
  {
    if a in s.clients {
      assert ClientFits(s, a);
      if !e.Cut? && e.agent != a {
        OtherAgentKeepsClient(registered, s, e, a);
      } else {
        OwnStepKeepsClient(registered, s, e, a);
      }
    }
  }

  lemma OtherAgentKeepsClient(registered: set<string>, s: State, e: Event, a: Agent)
    requires Invariant(registered, s) && !e.Deliver? && !e.Cut? && e.agent != a && a in s.clients
    ensures ClientFits(Step(registered, s, e), a)
  {
    assert ClientFits(s, a);
    if e.agent in s.clients { assert ClientFits(s, e.agent); }
    var s' := Step(registered, s, e);
    assert s'.clients[a] == s.clients[a] && s'.store == s.store;
    if s.clients[a].stream.Some? {
      assert s'.streams[s.clients[a].stream.value] == s.streams[s.clients[a].stream.value];
    }
  }

  lemma OwnStepKeepsClient(registered: set<string>, s: State, e: Event, a: Agent)
    requires Invariant(registered, s) && !e.Deliver? && (e.Cut? || e.agent == a) && a in s.clients
    ensures ClientFits(Step(registered, s, e), a)
  {
    assert ClientFits(s, a);
    var c := s.clients[a];
    if c.stream.Some? {
      assert WellOpened(s.streams[c.stream.value]) && Behind(s, s.streams[c.stream.value]);
    }
  }

  lemma {:induction false} InvariantHolds(registered: set<string>, es: seq<Event>)
    ensures Invariant(registered, Run(registered, es))
  {
    if es != [] {
      InvariantHolds(registered, es[..|es| - 1]);
      StepKeepsInvariant(registered, Run(registered, es[..|es| - 1]), es[|es| - 1]);
    }
  }

  // ---- what every run shows ----------------------------------------------------------------

  /** Whatever connections break, acknowledgements are lost and old streams deliver late, the batches
    * applied for an agent are exactly 1, 2, up to the stored maximum, each once and in that order, each
    * as it was sent under that number; the agent's counter is the maximum or one more; and the store
    * holds, for each registered key, the last metric of the applied batches.
    */
  lemma AppliedInOrder(registered: set<string>, es: seq<Event>, a: Agent)
    ensures var s := Run(registered, es);
            && |Of(s.applied, a)| == Highest(s.store, a)
            && (forall i :: 0 <= i < |Of(s.applied, a)| ==> Of(s.applied, a)[i].number == i + 1)
            && (forall b :: b in s.applied ==> b in s.sent)
            && (a in s.clients ==>
                  s.clients[a].sequence == Highest(s.store, a) || s.clients[a].sequence == Highest(s.store, a) + 1)
    ensures var s := Run(registered, es);
            && (forall k :: k in s.store.metrics ==> Written(registered, Flatten(s.applied), k, s.store.metrics[k]))
            && (forall k, i :: IsLast(registered, Flatten(s.applied), k, i) ==>
                  k in s.store.metrics && s.store.metrics[k] == Flatten(s.applied)[i])
  {
    InvariantHolds(registered, es);
    var s := Run(registered, es);
    assert Numbered(s, a);
    WriteKeepsLast(registered, Flatten(s.applied));
    if a in s.clients { assert ClientFits(s, a); }
  }

  /** An answer on the live connection is always for the batch just sent, so each one moves the
    * counter on by exactly one, past what the store has.
    */
  lemma EveryAnswerAdvances(registered: set<string>, es: seq<Event>, a: Agent)
    requires var s := Run(registered, es);
             a in s.clients && s.clients[a].awaiting && s.clients[a].stream.Some?
                 && s.clients[a].stream.value < |s.streams|
             && s.streams[s.clients[a].stream.value].acks != []
    ensures var s := Run(registered, es);
            var s' := Step(registered, s, Receive(a));
            && s'.clients[a].sequence == s.clients[a].sequence + 1 == Highest(s'.store, a) + 1
            && !s'.clients[a].awaiting
  {
    InvariantHolds(registered, es);
    var s := Run(registered, es);
    assert ClientFits(s, a);
    assert Behind(s, s.streams[s.clients[a].stream.value]);
  }

  /** The client keeps to the protocol: the gateway never ends its stream for a missing or repeated
    * hello.
    */
  lemma NeverOutOfProtocol(registered: set<string>, es: seq<Event>, k: nat)
    requires k < |Run(registered, es).streams|
    ensures Run(registered, es).streams[k].aborted !in {Some(HelloMissing), Some(RepeatedHello)}
  {
    InvariantHolds(registered, es);
    assert WellOpened(Run(registered, es).streams[k]);
  }

  // ---- refused hellos ----------------------------------------------------------------------

  /** Nothing was taken in, and nothing answered, on a stream whose hello was refused or not handled yet. */
  ghost predicate UnboundIsSilent(s: State) {
    forall k :: 0 <= k < |s.streams| ==>
      && (!s.streams[k].bound ==> s.streams[k].acks == [])
      && (s.streams[k].aborted == Some(IdentityRefused) ==> !s.streams[k].bound)
  }

  lemma {:induction false} RefusedHelloBindsNothing(registered: set<string>, es: seq<Event>)
    ensures UnboundIsSilent(Run(registered, es))
  {
    if es != [] {
      RefusedHelloBindsNothing(registered, es[..|es| - 1]);
      StepKeepsSilence(registered, Run(registered, es[..|es| - 1]), es[|es| - 1]);
    }
  }

  lemma StepKeepsSilence(registered: set<string>, s: State, e: Event)
    requires UnboundIsSilent(s)
    ensures UnboundIsSilent(Step(registered, s, e))
  {
  }

  /** Only the first frame of a bound stream that was not ended is ever taken in, and its hello decides
    * whether a stream is bound: refused, it ends the stream, and an ended stream stays as it is.
    */
  lemma OnlyBoundStreamsApply(registered: set<string>, s: State, e: Event)
    ensures var s' := Step(registered, s, e);
            && (s'.applied != s.applied ==>
                  && e.Deliver? && e.stream < |s.streams|
                  && var stream := s.streams[e.stream];
                  && stream.bound && stream.aborted.None? && stream.up != [] && stream.up[0].Telemetry?
                  && s'.applied == s.applied + [BatchOf(stream, stream.up[0])])
            && |s.streams| <= |s'.streams|
            && forall k :: 0 <= k < |s.streams| ==>
                 && (s.streams[k].aborted.Some? ==>
                       s'.streams[k].aborted == s.streams[k].aborted && s'.streams[k].bound == s.streams[k].bound)
                 && (s'.streams[k].bound && !s.streams[k].bound ==>
                       e == Deliver(k, false) && s.streams[k].up != [] && s.streams[k].up[0].Hello?)
                 && (e == Deliver(k, true) && s.streams[k].aborted.None? && !s.streams[k].bound
                     && s.streams[k].up != [] && s.streams[k].up[0].Hello? ==>
                       s'.streams[k].aborted == Some(IdentityRefused))
  {
  }

  /** So a stream whose hello was refused stays ended and unbound whatever happens later. */
  lemma {:induction false} RefusedForGood(registered: set<string>, es: seq<Event>, more: seq<Event>, k: nat)
    requires k < |Run(registered, es).streams| && Run(registered, es).streams[k].aborted == Some(IdentityRefused)
    ensures var s := Run(registered, es + more);
            k < |s.streams| && s.streams[k].aborted == Some(IdentityRefused) && !s.streams[k].bound
  {
    RefusedHelloBindsNothing(registered, es + more);
    if more == [] {
      assert es + more == es;
    } else {
      var n := |more| - 1;
      RefusedForGood(registered, es, more[..n], k);
      RunAppend(registered, es, more);
      OnlyBoundStreamsApply(registered, Run(registered, es + more[..n]), more[n]);
    }
  }

  lemma RunAppend(registered: set<string>, es: seq<Event>, more: seq<Event>)
    requires more != []
    ensures Run(registered, es + more) == Step(registered, Run(registered, es + more[..|more| - 1]), more[|more| - 1])
  {
    assert (es + more)[..|es + more| - 1] == es + more[..|more| - 1];
  }

  // ---- refused batches ---------------------------------------------------------------------

  ghost predicate SomeRefused(s: State) {
    exists k :: 0 <= k < |s.streams| && s.streams[k].aborted == Some(IngestFailed)
  }

  ghost predicate SomeForeign(s: State) {
    exists b :: b in s.applied && Foreign(b)
  }

  /** The gateway refuses a batch exactly when it takes in a foreign one. */
  lemma HandleRefuses(registered: set<string>, s: State, k: nat, refused: bool)
    requires k < |s.streams| && s.streams[k].up != [] && s.streams[k].aborted.None?
    requires SomeRefused(s) <==> SomeForeign(s)
    ensures var s' := Handle(registered, s, k, refused); SomeRefused(s') <==> SomeForeign(s')
  {
    var s' := Handle(registered, s, k, refused);
    var stream := s.streams[k];
    assert forall j :: 0 <= j < |s.streams| && j != k ==> s'.streams[j] == s.streams[j];
    assert forall b :: b in s.applied ==> b in s'.applied;
    if SomeRefused(s) {
      var j :| 0 <= j < |s.streams| && s.streams[j].aborted == Some(IngestFailed);
      assert s'.streams[j].aborted == Some(IngestFailed);
    } else if s'.streams[k].aborted == Some(IngestFailed) {
      assert BatchOf(stream, stream.up[0]) in s'.applied;
    }
  }

  lemma OthersRefuseNothing(registered: set<string>, s: State, e: Event)
    requires !e.Deliver?
    ensures var s' := Step(registered, s, e);
            && s'.applied == s.applied && |s.streams| <= |s'.streams|
            && (forall k :: 0 <= k < |s.streams| ==> s'.streams[k].aborted == s.streams[k].aborted)
            && (forall k :: |s.streams| <= k < |s'.streams| ==> s'.streams[k].aborted.None?)
  {
  }

  /** Over every run, no batch is refused exactly when no batch taken in carries a foreign asset: the
    * check comes after the batch was recorded.
    */
  lemma {:induction false} RefusedExactlyWhenForeign(registered: set<string>, es: seq<Event>)
    ensures var s := Run(registered, es);
            (forall k :: 0 <= k < |s.streams| ==> s.streams[k].aborted != Some(IngestFailed))
                <==> (forall b :: b in s.applied ==> !Foreign(b))
  {
    RefusedMeansForeign(registered, es);
  }

  lemma {:induction false} RefusedMeansForeign(registered: set<string>, es: seq<Event>)
    ensures SomeRefused(Run(registered, es)) <==> SomeForeign(Run(registered, es))
  {
    if es != [] {
      var s, e := Run(registered, es[..|es| - 1]), es[|es| - 1];
      var s' := Step(registered, s, e);
      RefusedMeansForeign(registered, es[..|es| - 1]);
      if e.Deliver? {
        if e.stream < |s.streams| && s.streams[e.stream].aborted.None? && s.streams[e.stream].up != [] {
          HandleRefuses(registered, s, e.stream, e.refused);
        }
      } else {
        OthersRefuseNothing(registered, s, e);
        if k :| 0 <= k < |s.streams| && s.streams[k].aborted == Some(IngestFailed) {
          assert s'.streams[k].aborted == Some(IngestFailed);
        }
      }
    }
  }

  /** In every reachable state a foreign batch that is new ends its stream and takes its number: what
    * the client sends again under that number is not applied.
    */
  lemma RefusedBatchIsTaken(registered: set<string>, es: seq<Event>, k: nat, refused: bool, again: seq<Metric>,
                            owners: seq<string>)
    requires var s := Run(registered, es);
             && k < |s.streams| && s.streams[k].aborted.None? && s.streams[k].bound
             && s.streams[k].up != [] && s.streams[k].up[0].Telemetry?
             && Foreign(BatchOf(s.streams[k], s.streams[k].up[0]))
             && s.streams[k].up[0].number > Highest(s.store, s.streams[k].agent)
    ensures var s := Run(registered, es);
            var s', a := Step(registered, s, Deliver(k, refused)), s.streams[k].agent;
            var number := s.streams[k].up[0].number;
            && s'.streams[k].aborted == Some(IngestFailed)
            && s'.applied == s.applied + [BatchOf(s.streams[k], s.streams[k].up[0])]
            && a in s'.clients && number == s'.clients[a].sequence == Highest(s'.store, a)
            && Accept(registered, s'.store, Batch(a, number, again, owners)) == (s'.store, false)
  {
    InvariantHolds(registered, es);
    AcceptedIsNext(registered, Run(registered, es), k);
  }

  lemma After(registered: set<string>, es: seq<Event>, e: Event) returns (r: seq<Event>)
    ensures Run(registered, r) == Step(registered, Run(registered, es), e)
  {
    r := es + [e];
    assert r[..|es|] == es;
  }

  lemma HelloHandled(registered: set<string>, s: State, k: nat, next: Frame)
    requires k < |s.streams| && s.streams[k].up == [Hello, next] && !s.streams[k].bound
    ensures Handle(registered, s, k, false) == s.(streams := s.streams[k := s.streams[k].(up := [next], bound := true)])
  {
    assert [Hello, next][1..] == [next];
  }

  lemma BatchHandled(registered: set<string>, s: State, k: nat, frame: Frame)
    requires k < |s.streams| && frame.Telemetry? && s.streams[k].up == [frame] && s.streams[k].bound
             && s.streams[k].acks == []
    ensures var batch := BatchOf(s.streams[k], frame);
            var (store, accepted) := Accept(registered, s.store, batch);
            var after := s.streams[k].(up := []);
            Handle(registered, s, k, false)
            == s.(streams := s.streams[k := if accepted && Foreign(batch) then after.(aborted := Some(IngestFailed))
                                       else after.(acks := [frame.number])],
                  store := store, applied := if accepted then s.applied + [batch] else s.applied)
  {
    assert [frame][1..] == [] && s.streams[k].acks + [frame.number] == [frame.number];
  }

  /** The sole batch under way on a fresh connection `k` reaches the store. */
  lemma FirstBatchArrives(registered: set<string>, before: seq<Event>, k: nat, metrics: seq<Metric>,
                          owners: seq<string>, a: Agent)
    returns (es: seq<Event>)
    requires var s := Run(registered, before);
             && k == |s.streams| - 1 && s.streams[k] == Stream(a, [Hello], false, [], None)
             && a in s.clients && s.clients[a].stream == Some(k) && !s.clients[a].awaiting
    ensures var s, s' := Run(registered, before), Run(registered, es);
            var batch := Batch(a, s.clients[a].sequence, metrics, owners);
            var (store, accepted) := Accept(registered, s.store, batch);
            s' == State(s.clients[a := s.clients[a].(awaiting := true)],
                        s.streams[k := if accepted && Foreign(batch) then Stream(a, [], true, [], Some(IngestFailed))
                                       else Stream(a, [], true, [batch.number], None)],
                        store, s.sent + [batch], if accepted then s.applied + [batch] else s.applied)
  {
    var frame := Telemetry(Run(registered, before).clients[a].sequence, metrics, owners);
    es := After(registered, before, Send(a, metrics, owners));
    assert Run(registered, es).streams[k].up == [Hello, frame];
    HelloHandled(registered, Run(registered, es), k, frame);
    es := After(registered, es, Deliver(k, false));
    assert Run(registered, es).streams[k] == Stream(a, [frame], true, [], None);
    BatchHandled(registered, Run(registered, es), k, frame);
    es := After(registered, es, Deliver(k, false));
  }

  lemma FirstBatchRefused(registered: set<string>, a: Agent, first: seq<Metric>, other: string) returns (es: seq<Event>)
    requires other != a.0
    ensures var foreign := Batch(a, 1, first, [other]);
            Run(registered, es) == State(map[a := Client(1, Some(0), true)],
                                         [Stream(a, [], true, [], Some(IngestFailed))],
                                         Contents(Write(registered, map[], first), map[a := 1]), [foreign], [foreign])
  {
    assert other in Batch(a, 1, first, [other]).owners;
    es := After(registered, [], Start(a));
    es := After(registered, es, Connect(a));
    assert Run(registered, es)
        == State(map[a := Client(1, Some(0), false)], [Stream(a, [Hello], false, [], None)],
                 Contents(map[], map[]), [], []);
    es := FirstBatchArrives(registered, es, 0, first, [other], a);
  }

  lemma FirstBatchTaken(registered: set<string>, a: Agent, first: seq<Metric>) returns (es: seq<Event>)
    ensures Run(registered, es)
            == State(map[a := Client(1, Some(0), true)], [Stream(a, [], true, [1], None)],
                     Contents(Write(registered, map[], first), map[a := 1]),
                     [Batch(a, 1, first, [a.0])], [Batch(a, 1, first, [a.0])])
  {
    es := After(registered, [], Start(a));
    es := After(registered, es, Connect(a));
    assert Run(registered, es)
        == State(map[a := Client(1, Some(0), false)], [Stream(a, [Hello], false, [], None)],
                 Contents(map[], map[]), [], []);
    es := FirstBatchArrives(registered, es, 0, first, [a.0], a);
  }

  /** The connection breaks before the answer to number one; other content goes out under it. */
  lemma SentAgain(registered: set<string>, before: seq<Event>, a: Agent, again: seq<Metric>) returns (es: seq<Event>)
    requires var s := Run(registered, before);
             s.clients == map[a := Client(1, Some(0), true)] && |s.streams| == 1 && Highest(s.store, a) == 1
    ensures var s := Run(registered, before);
            Run(registered, es)
            == State(map[a := Client(2, Some(1), false)], s.streams + [Stream(a, [], true, [], None)],
                     s.store, s.sent + [Batch(a, 1, again, [a.0])], s.applied)
  {
    var s := Run(registered, before);
    es := After(registered, before, Lose(a));
    es := After(registered, es, Connect(a));
    assert Run(registered, es).streams == s.streams + [Stream(a, [Hello], false, [], None)];
    es := FirstBatchArrives(registered, es, 1, again, [a.0], a);
    assert Run(registered, es).streams == s.streams + [Stream(a, [], true, [1], None)];
    es := After(registered, es, Receive(a));
    assert [1][1..] == [];
  }

  /** It happens to any agent: its first batch carries a foreign asset and is refused, it connects again
    * and sends other content under the same number, gets its answer and moves on to number two, and the
    * content sent again is nowhere.
    */
  lemma ResentContentIsLost(registered: set<string>, a: Agent, first: seq<Metric>, other: string, again: seq<Metric>)
    returns (es: seq<Event>)
    requires other != a.0
    ensures var s, resent := Run(registered, es), Batch(a, 1, again, [a.0]);
            && |s.streams| == 2 && s.streams[0].aborted == Some(IngestFailed)
            && a in s.clients && s.clients[a].sequence == 2
            && resent in s.sent && resent !in s.applied
            && s.applied == [Batch(a, 1, first, [other])]
            && s.store.metrics == Write(registered, map[], first)
  {
    es := FirstBatchRefused(registered, a, first, other);
    es := SentAgain(registered, es, a, again);
    assert Run(registered, es).sent[1] == Batch(a, 1, again, [a.0]);
  }

  /** No foreign asset is needed: the answer to a batch that was taken in is lost with its connection, the
    * agent sends other content under the same number, gets its answer and moves on to number two.
    */
  lemma LostAnswerLosesContent(registered: set<string>, a: Agent, first: seq<Metric>, again: seq<Metric>)
    returns (es: seq<Event>)
    requires first != again
    ensures var s, resent := Run(registered, es), Batch(a, 1, again, [a.0]);
            && (forall k :: 0 <= k < |s.streams| ==> s.streams[k].aborted.None?)
            && (forall b :: b in s.sent ==> !Foreign(b))
            && a in s.clients && s.clients[a].sequence == 2
            && resent in s.sent && resent !in s.applied
            && s.applied == [Batch(a, 1, first, [a.0])]
            && s.store.metrics == Write(registered, map[], first)
  {
    es := FirstBatchTaken(registered, a, first);
    es := SentAgain(registered, es, a, again);
    assert Run(registered, es).sent[1] == Batch(a, 1, again, [a.0]);
  }

  // ---- content sent again ------------------------------------------------------------------

  lemma {:induction false} OfKeeps(batches: seq<Batch>, a: Agent)
    ensures forall b :: b in Of(batches, a) <==> b in batches && b.agent == a
  {
    if batches != [] {
      var n := |batches| - 1;
      OfKeeps(batches[..n], a);
      assert batches == batches[..n] + [batches[n]];
    }
  }

  ghost predicate SentUnder(s: State, a: Agent, n: nat, b: Batch) {
    b in s.sent && b.agent == a && b.number == n
  }

  /** In every run, under a number the store has passed all content an agent sent was taken in exactly
    * when the agent sent the same content every time.
    */
  lemma TakenExactlyWhenUnchanged(registered: set<string>, es: seq<Event>, a: Agent, n: nat)
    requires 1 <= n <= Highest(Run(registered, es).store, a)
    ensures var s := Run(registered, es);
            (forall b :: SentUnder(s, a, n, b) ==> b in s.applied)
            <==> forall b, c :: SentUnder(s, a, n, b) && SentUnder(s, a, n, c) ==> b == c
  {
    InvariantHolds(registered, es);
    var s := Run(registered, es);
    assert Numbered(s, a);
    var taken := TakenUnder(s, a, n);
    assert SentUnder(s, a, n, taken);
  }

  /** One batch was taken in under each number the store has passed. */
  lemma TakenUnder(s: State, a: Agent, n: nat) returns (taken: Batch)
    requires Numbered(s, a) && 1 <= n <= Highest(s.store, a)
    ensures forall b :: b in s.applied && b.agent == a && b.number == n <==> b == taken
  {
    var mine := Of(s.applied, a);
    OfKeeps(s.applied, a);
    taken := mine[n - 1];
    assert taken in mine;
    forall b | b in mine && b.number == n ensures b == taken {
      var i :| 0 <= i < |mine| && mine[i] == b;
    }
  }

  /** Every metric in the store is kept under its own key and registered, as a listing needs. */
  lemma StoreIsConsistent(registered: set<string>, es: seq<Event>)
    ensures Consistent(registered, Run(registered, es).store.metrics)
  {
    InvariantHolds(registered, es);
    WriteConsistent(registered, Flatten(Run(registered, es).applied));
  }

  // ---- the client's counter ----------------------------------------------------------------

  class TelemetryClient {
    var sequence: nat

    constructor ()
      ensures sequence == 1
    {
      sequence := 1;
    }

    /** What the client does after sending a batch: an answer at or above its number moves it on. */
    method Acknowledge(acknowledged: nat)
      modifies this
      ensures sequence == Advance(old(sequence), acknowledged)
      ensures sequence > acknowledged && sequence >= old(sequence)
    {
      if acknowledged >= sequence {
        sequence := acknowledged + 1;
      }
    }
  }
}
