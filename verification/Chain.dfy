/** From a bad probe to a blocked heater: node poll, coordinator, canonical store, safety
    engine and output service together. */
module Chain {
  import opened Domain
  import opened Esp32
  import opened Probes
  import State
  import Profile
  import Safety
  import SafetyRuns
  import O = Output
  import OutputRuns

  /** The store gives no good reading for the key, now or later. */
  predicate Unfit(store: State.Store, key: State.Key) {
    key in store.values ==> store.values[key].quality != Good
  }

  // ---------- What a bad poll leaves in the store ----------

  lemma {:induction false} UnavailabilityIsStorable(ep: Endpoint, probe: Id, now: Time)
    requires ep.Valid() && now != 0 && (probe == ep.firstProbe || probe == ep.secondProbe)
    ensures Unavailability(ep, probe, now).Valid()
  {
  }

  lemma {:induction false} MarkedUnfit(policies: set<Id>, store: State.Store, ep: Endpoint, now: Time)
    requires ep.Valid() && now != 0 && ep.id in policies
    ensures var s := MarkUnavailable(policies, store, ep, now);
            Unfit(s, ProbeKey(ep.firstProbe)) && Unfit(s, ProbeKey(ep.secondProbe))
  {
    UnavailabilityIsStorable(ep, ep.firstProbe, now);
    UnavailabilityIsStorable(ep, ep.secondProbe, now);
  }

  /** Storing a measurement keeps a key unfit, unless it is that key's own good measurement. */
  lemma {:induction false} StoreKeepsUnfit(store: State.Store, entry: State.Entry, key: State.Key)
    requires Unfit(store, key) && (entry.key == key ==> entry.quality != Good)
    ensures Unfit(Store(store, entry), key)
  {
  }

  /** A condition always shows in the quality of one of the measurements. */
  lemma {:induction false} ConditionShows(ep: Endpoint, s: Snapshot, now: Time, previous: SequenceState)
    requires Validate(ep, s, now, previous).Taken? && Validate(ep, s, now, previous).condition != Healthy
    ensures var v := Validate(ep, s, now, previous);
            && v.first.sensorId == ep.firstProbe && v.second.sensorId == ep.secondProbe
            && (v.first.quality != Good || v.second.quality != Good)
  {
  }

  /** Main step: after a poll that fails, is refused, is stale, lacks a usable probe reading
      or finds the probes too far apart, one of the two probes has no good reading left. */
  lemma {:induction false} BadPollLeavesUnfitProbe(n: Node, ep: Endpoint, reply: Reply, now: Time)
    requires ep.Valid() && now != 0 && ep.id in n.policies && Troubled(n, ep, reply, now)
    ensures var store := Poll(n, ep, reply, now).store;
            Unfit(store, ProbeKey(ep.firstProbe)) || Unfit(store, ProbeKey(ep.secondProbe))
  {
    BadIff(n, ep, reply, now);
    MarkedUnfit(n.policies, n.store, ep, now);
    var outcome := Outcome(n, ep, reply, now);
    if outcome.Taken? {
      ConditionShows(ep, reply.snapshot, now, Previous(n.sequences, ep.id));
      var marked := MarkUnavailable(n.policies, n.store, ep, now);
      var first, second := MeasuredEntry(ep, outcome.first), MeasuredEntry(ep, outcome.second);
      if outcome.first.quality != Good {
        StoreKeepsUnfit(marked, first, ProbeKey(ep.firstProbe));
        StoreKeepsUnfit(Store(marked, first), second, ProbeKey(ep.firstProbe));
      } else {
        StoreKeepsUnfit(marked, first, ProbeKey(ep.secondProbe));
        StoreKeepsUnfit(Store(marked, first), second, ProbeKey(ep.secondProbe));
      }
    }
  }

  // ---------- What the safety engine makes of it ----------

  /** The store as the safety engine reads it at an instant. */
  function ReaderAt(store: State.Store, at: Time): Safety.Reader {
    map key | key in store.values :: Safety.Found(store.values[key].ReadAt(at))
  }

  predicate HardDenied(evaluation: Safety.Evaluation) {
    evaluation.Decided? && !evaluation.decision.allowed && evaluation.decision.hardLimit
  }

  ghost predicate Requires(requirements: seq<Profile.Requirement>, key: State.Key) {
    exists i :: 0 <= i < |requirements| && requirements[i].key == key
  }

  lemma {:induction false} UnfitInputIsAFault(requirement: Profile.Requirement, store: State.Store, at: Time)
    ensures var fault := Safety.InputFault(requirement, ReaderAt(store, at));
            && (fault.Some? ==> HardDenied(fault.value))
            && (Unfit(store, requirement.key) ==> fault.Some?)
  {
  }

  lemma {:induction false} UnfitInputDenies(requirements: seq<Profile.Requirement>, store: State.Store, at: Time, key: State.Key)
    requires Unfit(store, key) && Requires(requirements, key)
    ensures HardDenied(Safety.ValidateInputs(requirements, ReaderAt(store, at)))
    decreases |requirements|
  {
    UnfitInputIsAFault(requirements[0], store, at);
    var i :| 0 <= i < |requirements| && requirements[i].key == key;
    if Safety.InputFault(requirements[0], ReaderAt(store, at)).None? {
      assert requirements[1..][i - 1].key == key;
      UnfitInputDenies(requirements[1..], store, at, key);
    }
  }

  /** The equipment is hazardous and both probes of the node are among its required inputs. */
  ghost predicate DependsOn(p: Profile.Profile, ep: Endpoint) {
    p.hazardous && Requires(p.requiredInputs, ProbeKey(ep.firstProbe)) && Requires(p.requiredInputs, ProbeKey(ep.secondProbe))
  }

  /** One of the node's probes is unfit. */
  predicate Blocked(store: State.Store, ep: Endpoint) {
    Unfit(store, ProbeKey(ep.firstProbe)) || Unfit(store, ProbeKey(ep.secondProbe))
  }

  lemma {:induction false} BlockedDenies(
      e: Safety.Engine, store: State.Store, ep: Endpoint, intent: Safety.Intent, clock: Time, at: Time)
    requires Blocked(store, ep) && intent.on && intent.equipmentId in e.profiles
    requires DependsOn(e.profiles[intent.equipmentId], ep)
    ensures HardDenied(Safety.Evaluate(e, intent, clock, ReaderAt(store, at)).1)
  {
    var p := e.profiles[intent.equipmentId];
    if Unfit(store, ProbeKey(ep.firstProbe)) {
      UnfitInputDenies(p.requiredInputs, store, at, ProbeKey(ep.firstProbe));
    } else {
      UnfitInputDenies(p.requiredInputs, store, at, ProbeKey(ep.secondProbe));
    }
  }

  // ---------- Whole runs ----------

  datatype System = System(node: Node, engine: Safety.Engine)

  /** Any poll, any other write or deletion in the store, any call on the engine. */
  datatype Op =
    | PollOp(endpoint: Endpoint, reply: Reply, now: Time)
    | WriteOp(entry: State.Entry)
    | DeleteOp(key: State.Key)
    | EngineOp(op: SafetyRuns.Op)

  function Step(s: System, op: Op): System {
    match op
    case PollOp(ep, reply, now) => s.(node := Poll(s.node, ep, reply, now))
    case WriteOp(entry) => s.(node := s.node.(store := Store(s.node.store, entry)))
    case DeleteOp(key) => s.(node := s.node.(store := s.node.store.Delete(key)))
    case EngineOp(op) => s.(engine := SafetyRuns.Step(s.engine, op))
  }

  function Run(s: System, ops: seq<Op>): System
    decreases |ops|
  {
    if ops == [] then s else Run(Step(s, ops[0]), ops[1..])
  }

  /** The operation is not a poll of this node: it shares no probe with it, and it does not
      otherwise write this node's measurements. */
  predicate Elsewhere(op: Op, ep: Endpoint) {
    match op
    case PollOp(other, _, _) =>
      && other.firstProbe != ep.firstProbe && other.firstProbe != ep.secondProbe
      && other.secondProbe != ep.firstProbe && other.secondProbe != ep.secondProbe
    case WriteOp(entry) => entry.key != ProbeKey(ep.firstProbe) && entry.key != ProbeKey(ep.secondProbe)
    case _ => true
  }

  lemma {:induction false} OtherPollKeepsUnfit(n: Node, other: Endpoint, reply: Reply, now: Time, probe: Id)
    requires Unfit(n.store, ProbeKey(probe)) && other.firstProbe != probe && other.secondProbe != probe
    ensures Unfit(Poll(n, other, reply, now).store, ProbeKey(probe))
  {
    var outcome, key := Outcome(n, other, reply, now), ProbeKey(probe);
    StoreKeepsUnfit(n.store, Unavailability(other, other.firstProbe, now), key);
    StoreKeepsUnfit(Store(n.store, Unavailability(other, other.firstProbe, now)), Unavailability(other, other.secondProbe, now), key);
    if outcome.Taken? {
      var marked := if outcome.condition == Healthy then n.store else MarkUnavailable(n.policies, n.store, other, now);
      var first := MeasuredEntry(other, outcome.first);
      StoreKeepsUnfit(marked, first, key);
      StoreKeepsUnfit(Store(marked, first), MeasuredEntry(other, outcome.second), key);
    }
  }

  lemma {:induction false} StepKeepsBlocked(s: System, op: Op, ep: Endpoint)
    requires Blocked(s.node.store, ep) && Elsewhere(op, ep)
    ensures Blocked(Step(s, op).node.store, ep)
  {
    forall probe | (probe == ep.firstProbe || probe == ep.secondProbe) && Unfit(s.node.store, ProbeKey(probe))
      ensures Unfit(Step(s, op).node.store, ProbeKey(probe))
    {
      match op
      case PollOp(other, reply, now) => OtherPollKeepsUnfit(s.node, other, reply, now, probe);
      case WriteOp(entry) => StoreKeepsUnfit(s.node.store, entry, ProbeKey(probe));
      case _ =>
    }
  }

  lemma {:induction false} RunKeepsBlocked(s: System, ops: seq<Op>, ep: Endpoint)
    requires s.engine.Valid() && Blocked(s.node.store, ep)
    requires forall i :: 0 <= i < |ops| ==> Elsewhere(ops[i], ep)
    ensures Blocked(Run(s, ops).node.store, ep) && Run(s, ops).engine.profiles == s.engine.profiles
    decreases |ops|
  {
    if ops != [] {
      StepKeepsBlocked(s, ops[0], ep);
      if ops[0].EngineOp? {
        SafetyRuns.StepKeepsValid(s.engine, ops[0].op);
      }
      RunKeepsBlocked(Step(s, ops[0]), ops[1..], ep);
    }
  }

  /** Main result: after a bad poll, and through any run without a further poll of that
      node, every on-intent for hazardous equipment that requires both probes is denied with
      a hard limit, at whatever time, in whatever mode and with whatever override. */
  lemma {:induction false} BadProbeBlocksHeater(
      s: System, ep: Endpoint, reply: Reply, now: Time, ops: seq<Op>, intent: Safety.Intent, clock: Time, at: Time)
    requires s.engine.Valid() && ep.Valid() && now != 0 && ep.id in s.node.policies && Troubled(s.node, ep, reply, now)
    requires forall i :: 0 <= i < |ops| ==> Elsewhere(ops[i], ep)
    requires intent.on && intent.equipmentId in s.engine.profiles && DependsOn(s.engine.profiles[intent.equipmentId], ep)
    ensures var later := Run(Step(s, PollOp(ep, reply, now)), ops);
            HardDenied(Safety.Evaluate(later.engine, intent, clock, ReaderAt(later.node.store, at)).1)
  {
    BadPollLeavesUnfitProbe(s.node, ep, reply, now);
    var polled := Step(s, PollOp(ep, reply, now));
    RunKeepsBlocked(polled, ops, ep);
    var later := Run(polled, ops);
    BlockedDenies(later.engine, later.node.store, ep, intent, clock, at);
  }

  /** So no such command reaches the hardware through the output service. */
  lemma {:induction false} BadProbeStopsCommands(
      s: System, ep: Endpoint, reply: Reply, now: Time, ops: seq<Op>, clock: Time, at: Time,
      service: O.Service, command: O.Command, w: O.World)
    requires s.engine.Valid() && ep.Valid() && now != 0 && ep.id in s.node.policies && Troubled(s.node, ep, reply, now)
    requires forall i :: 0 <= i < |ops| ==> Elsewhere(ops[i], ep)
    requires command.on && command.equipmentId in s.engine.profiles && DependsOn(s.engine.profiles[command.equipmentId], ep)
    requires var later := Run(Step(s, PollOp(ep, reply, now)), ops);
             w.evaluation == Safety.Evaluate(
               later.engine, Safety.Intent(command.equipmentId, command.on, command.issuedAt), clock, ReaderAt(later.node.store, at)).1
    ensures O.Submit(service, command, w).sent == None
  {
    BadProbeBlocksHeater(s, ep, reply, now, ops, Safety.Intent(command.equipmentId, command.on, command.issuedAt), clock, at);
    OutputRuns.SubmitSpendsKey(service, command, w);
  }

  // ---------- Recovery ----------

  /** Both probes hold this snapshot's readings, with good quality. */
  predicate Refreshed(store: State.Store, ep: Endpoint, observedAt: Time) {
    && ProbeKey(ep.firstProbe) in store.values && ProbeKey(ep.secondProbe) in store.values
    && store.values[ProbeKey(ep.firstProbe)].quality == Good && store.values[ProbeKey(ep.secondProbe)].quality == Good
    && store.values[ProbeKey(ep.firstProbe)].observedAt == observedAt
    && store.values[ProbeKey(ep.secondProbe)].observedAt == observedAt
  }

  /** A healthy poll refreshes both probes exactly when its snapshot is not dated after the
      poll. A snapshot dated later, though within the allowed clock skew, passes the adapter
      and is then refused by the store, which keeps what it had. */
  lemma {:induction false} HealthyPollRefreshesIff(n: Node, ep: Endpoint, reply: Reply, now: Time)
    requires ep.Valid() && now != 0 && ep.id in n.policies && !Troubled(n, ep, reply, now)
    ensures var store := Poll(n, ep, reply, now).store;
            && (reply.snapshot.observedAt <= now ==> Refreshed(store, ep, reply.snapshot.observedAt))
            && (reply.snapshot.observedAt > now ==> store == n.store)
  {
    BadIff(n, ep, reply, now);
    var v := Validate(ep, reply.snapshot, now, Previous(n.sequences, ep.id));
    MeasuredStorable(ep, v.first, now);
    MeasuredStorable(ep, v.second, now);
  }

  /** Such snapshots exist, for every endpoint that permits any skew and every time ahead
      within it: the poll finds nothing wrong, and the store keeps what it had. */
  lemma {:induction false} SnapshotAheadIsLost(n: Node, ep: Endpoint, now: Time, ahead: Duration) returns (reply: Reply)
    requires ep.Valid() && now != 0 && ep.id in n.policies && 0 < ahead <= ep.maximumClockSkew && now + ahead != 0
    ensures reply.Reply? && reply.snapshot.observedAt == now + ahead
    ensures !Troubled(n, ep, reply, now) && Poll(n, ep, reply, now).store == n.store
  {
    var first, second := Probe(ep.firstProbe, Some(Finite(25.0)), true), Probe(ep.secondProbe, Some(Finite(25.0)), true);
    var probes := [first, second];
    reply := Reply(Snapshot(
      "1.0", ep.deviceId, "boot", Previous(n.sequences, ep.id).sequence + 1, now + ahead, probes));
    assert probes[1..] == [second];
    assert Reading(probes, ep.firstProbe) == Some(25.0);
    assert Reading(probes, ep.secondProbe) == Some(25.0);
    BadIff(n, ep, reply, now);
    HealthyPollRefreshesIff(n, ep, reply, now);
  }

  /** Without a policy for the node a poll writes nothing, so nothing is blocked by it. */
  lemma {:induction false} UnknownNodeWritesNothing(n: Node, ep: Endpoint, reply: Reply, now: Time)
    requires ep.id !in n.policies
    ensures Poll(n, ep, reply, now).store == n.store
  {
  }

  lemma {:induction false} MeasuredStorable(ep: Endpoint, m: Measurement, now: Time)
    requires ep.Valid() && now != 0 && m.receivedAt == now && m.freshFor == ep.freshFor && m.observedAt != 0
    requires (m.sensorId == ep.firstProbe || m.sensorId == ep.secondProbe) && m.quality != UnknownQuality
    ensures MeasuredEntry(ep, m).Valid() <==> m.observedAt <= now
  {
  }

  /** Refreshed probes read good until their freshness runs out, and stale from then on. */
  lemma {:induction false} RefreshedReadsGoodUntil(store: State.Store, ep: Endpoint, observedAt: Time, probe: Id, at: Time)
    requires Refreshed(store, ep, observedAt) && (probe == ep.firstProbe || probe == ep.secondProbe)
    ensures var entry := store.values[ProbeKey(probe)];
            store.Get(ProbeKey(probe), at).value.quality == if at < observedAt + entry.freshFor then Good else Stale
  {
  }
}
