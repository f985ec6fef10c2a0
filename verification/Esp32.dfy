/** An ESP32 node poll, from the reply on the wire to the canonical store. */
module Esp32 {
  import opened Domain
  import State

  datatype Endpoint = Endpoint(
    id: Id,
    deviceId: Id,
    firstProbe: Id,
    secondProbe: Id,
    pollInterval: Duration,
    requestTimeout: Duration,
    freshFor: Duration,
    maximumClockSkew: Duration,
    maximumDifference: real)
  {
    predicate Valid() {
      && ValidUuid(id) && ValidUuid(deviceId)
      && firstProbe != secondProbe && ValidUuid(firstProbe) && ValidUuid(secondProbe)
      && 0 < requestTimeout <= pollInterval
      && pollInterval <= freshFor && 0 <= maximumClockSkew <= 60 * SECOND
      && 0.0 < maximumDifference <= 10.0
    }
  }

  datatype Probe = Probe(sensorId: Id, celsius: Option<Float>, valid: bool)

  datatype Snapshot = Snapshot(
    schemaVersion: string, nodeId: Id, bootId: string, sequence: nat, observedAt: Time, probes: seq<Probe>)

  datatype Reply = NoReply | Reply(snapshot: Snapshot)

  datatype Measurement = Measurement(
    sensorId: Id, celsius: real, quality: Quality, observedAt: Time, receivedAt: Time, freshFor: Duration)

  datatype Condition =
    | Healthy | Unreachable | SchemaUnsupported | IdentityInvalid | TimestampInvalid | ProbeCountInvalid
    | ProbeIdentityInvalid | SequenceStale | ProbeInvalid | ProbeDisagreement | SnapshotStale

  /** The latest boot and sequence number taken from a node; a new node has the empty boot. */
  datatype SequenceState = SequenceState(bootId: string, sequence: nat)

  const NO_SEQUENCE := SequenceState("", 0)

  /** A snapshot is refused for a condition, or yields both probes' measurements, possibly
      with a condition of its own. */
  datatype Validation = Refused(condition: Condition) | Taken(first: Measurement, second: Measurement, condition: Condition)

  // ---------- Validation ----------

  /** Probe identities are valid and not repeated. */
  predicate ProbesIdentified(probes: seq<Probe>) {
    && (forall i :: 0 <= i < |probes| ==> ValidUuid(probes[i].sensorId))
    && (forall i, j :: 0 <= i < j < |probes| ==> probes[i].sensorId != probes[j].sensorId)
  }

  /** The usable reading of a configured probe, if the snapshot has one. */
  function Reading(probes: seq<Probe>, id: Id): Option<real> {
    if probes == [] then None
    else if probes[0].sensorId == id then
      if probes[0].valid && probes[0].celsius.Some? && probes[0].celsius.value.Finite?
      then Some(probes[0].celsius.value.value) else None
    else Reading(probes[1..], id)
  }

  function Abs(r: real): real {
    if r < 0.0 then -r else r
  }

  predicate Disagree(a: Option<real>, b: Option<real>, maximum: real) {
    a.Some? && b.Some? && Abs(a.value - b.value) > maximum
  }

  function Measure(ep: Endpoint, id: Id, reading: Option<real>, quality: Quality, observedAt: Time, now: Time): Measurement {
    Measurement(
      id, if reading.Some? then reading.value else 0.0, if reading.Some? then quality else Invalid,
      observedAt, now, ep.freshFor)
  }

  /** The checks on the snapshot itself, in order: schema, identity, time, probe count and
      probe identities. */
  function Refusal(ep: Endpoint, s: Snapshot, now: Time): Option<Condition> {
    if s.schemaVersion != "1.0" then Some(SchemaUnsupported)
    else if s.nodeId != ep.deviceId || s.bootId == "" || |s.bootId| > 128 || s.sequence == 0 then Some(IdentityInvalid)
    else if s.observedAt == 0 || s.observedAt > now + ep.maximumClockSkew then Some(TimestampInvalid)
    else if |s.probes| != 2 then Some(ProbeCountInvalid)
    else if !ProbesIdentified(s.probes) then Some(ProbeIdentityInvalid)
    else None
  }

  /** Grades the two readings: staleness outweighs disagreement, a missing reading is invalid. */
  function Grade(ep: Endpoint, a: Option<real>, b: Option<real>, observedAt: Time, now: Time): Validation {
    var stale := observedAt + ep.freshFor <= now;
    var disagree := Disagree(a, b, ep.maximumDifference);
    var quality := if stale then Stale else if disagree then Suspect else Good;
    var condition :=
      if stale then SnapshotStale else if disagree then ProbeDisagreement
      else if a.None? || b.None? then ProbeInvalid else Healthy;
    Taken(
      Measure(ep, ep.firstProbe, a, quality, observedAt, now),
      Measure(ep, ep.secondProbe, b, quality, observedAt, now),
      condition)
  }

  /** A snapshot must also be newer than the last one of the same boot. */
  function Validate(ep: Endpoint, s: Snapshot, now: Time, previous: SequenceState): Validation {
    var refusal := Refusal(ep, s, now);
    if refusal.Some? then Refused(refusal.value)
    else if previous.bootId == s.bootId && s.sequence <= previous.sequence then Refused(SequenceStale)
    else Grade(ep, Reading(s.probes, ep.firstProbe), Reading(s.probes, ep.secondProbe), s.observedAt, now)
  }

  // ---------- The coordinator's writes ----------

  function ProbeKey(probe: Id): State.Key {
    State.Key(State.Sensor, probe, State.Observation, "measurement")
  }

  function ProbeEntry(probe: Id, celsius: real, quality: Quality, observedAt: Time, receivedAt: Time, freshFor: Duration, source: Id)
    : State.Entry
  {
    State.Entry(
      ProbeKey(probe), NewQuantityValue(Quantity(Temperature, Finite(celsius), Celsius)), quality,
      observedAt, receivedAt, freshFor, source, 0)
  }

  /** The store refuses an invalid value and is left as it was. */
  function Store(store: State.Store, entry: State.Entry): State.Store {
    if entry.Valid() then store.Set(entry) else store
  }

  function MeasuredEntry(ep: Endpoint, m: Measurement): State.Entry {
    ProbeEntry(m.sensorId, m.celsius, m.quality, m.observedAt, m.receivedAt, m.freshFor, ep.id)
  }

  function Unavailability(ep: Endpoint, probe: Id, now: Time): State.Entry {
    ProbeEntry(probe, 0.0, Unavailable, now, now, ep.freshFor, ep.id)
  }

  /** A failure marks both probes unavailable, if the coordinator has a policy for the node. */
  function MarkUnavailable(policies: set<Id>, store: State.Store, ep: Endpoint, now: Time): State.Store {
    if ep.id !in policies then store
    else Store(Store(store, Unavailability(ep, ep.firstProbe, now)), Unavailability(ep, ep.secondProbe, now))
  }

  /** Measurements too are written only under a policy. */
  function Report(policies: set<Id>, store: State.Store, ep: Endpoint, first: Measurement, second: Measurement): State.Store {
    if ep.id !in policies then store
    else Store(Store(store, MeasuredEntry(ep, first)), MeasuredEntry(ep, second))
  }

  // ---------- The poll ----------

  /** `policies` are the endpoints the coordinator was configured with. */
  datatype Node = Node(policies: set<Id>, store: State.Store, sequences: map<Id, SequenceState>)

  function Previous(sequences: map<Id, SequenceState>, id: Id): SequenceState {
    if id in sequences then sequences[id] else NO_SEQUENCE
  }

  function Outcome(n: Node, ep: Endpoint, reply: Reply, now: Time): Validation {
    if reply.NoReply? then Refused(Unreachable) else Validate(ep, reply.snapshot, now, Previous(n.sequences, ep.id))
  }

  function Poll(n: Node, ep: Endpoint, reply: Reply, now: Time): Node {
    match Outcome(n, ep, reply, now)
    case Refused(_) => n.(store := MarkUnavailable(n.policies, n.store, ep, now))
    case Taken(first, second, condition) =>
      var marked := if condition == Healthy then n.store else MarkUnavailable(n.policies, n.store, ep, now);
      var sequence := if reply.Reply? then SequenceState(reply.snapshot.bootId, reply.snapshot.sequence) else NO_SEQUENCE;
      Node(n.policies, Report(n.policies, marked, ep, first, second), n.sequences[ep.id := sequence])
  }

  /** The poll found something wrong with the node or a probe. */
  predicate IsBad(n: Node, ep: Endpoint, reply: Reply, now: Time) {
    var outcome := Outcome(n, ep, reply, now);
    outcome.Refused? || outcome.condition != Healthy
  }
}
