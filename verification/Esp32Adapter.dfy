/** The node adapter that polls, validates and writes to the canonical store in place. Every
    method is proved against the functions of `Esp32`. */
module Esp32Adapter {
  import opened Domain
  import E = Esp32
  import State
  import StateStore

  /** The map holds every probe of the sequence under its identity. */
  ghost predicate Indexes(byId: map<Id, E.Probe>, probes: seq<E.Probe>) {
    && (forall i :: 0 <= i < |probes| ==> probes[i].sensorId in byId && byId[probes[i].sensorId] == probes[i])
    && (forall id :: id in byId ==> exists i :: 0 <= i < |probes| && probes[i].sensorId == id)
  }

  /** Looking a probe up in the index gives the snapshot's reading. */
  lemma {:induction false} LookupIsReading(byId: map<Id, E.Probe>, probes: seq<E.Probe>, id: Id)
    requires forall i :: 0 <= i < |probes| ==> probes[i].sensorId in byId && byId[probes[i].sensorId] == probes[i]
    requires id in byId ==> exists i :: 0 <= i < |probes| && probes[i].sensorId == id
    ensures E.Reading(probes, id) == Lookup(byId, id)
    decreases |probes|
  {
    if probes != [] && probes[0].sensorId != id {
      if id in byId {
        var i :| 0 <= i < |probes| && probes[i].sensorId == id;
        assert probes[1..][i - 1].sensorId == id;
      }
      LookupIsReading(byId, probes[1..], id);
    }
  }

  function Lookup(byId: map<Id, E.Probe>, id: Id): Option<real> {
    if id in byId && byId[id].valid && byId[id].celsius.Some? && byId[id].celsius.value.Finite?
    then Some(byId[id].celsius.value.value) else None
  }

  class Adapter {
    const store: StateStore.Manager
    const policies: set<Id>
    var sequences: map<Id, E.SequenceState>

    ghost function Abs(): E.Node
      reads this, store
    {
      E.Node(policies, store.Abs(), sequences)
    }

    ghost predicate Valid()
      reads this, store
    {
      store.Valid()
    }

    constructor (store: StateStore.Manager, policies: set<Id>)
      requires store.Valid()
      ensures Valid() && this.store == store && this.policies == policies && sequences == map[]
    {
      this.store, this.policies := store, policies;
      sequences := map[];
    }

    /** Indexes the probes by identity, unless an identity is invalid or repeated. */
    method IndexProbes(probes: seq<E.Probe>) returns (ok: bool, byId: map<Id, E.Probe>)
      ensures ok == E.ProbesIdentified(probes)
      ensures ok ==> Indexes(byId, probes)
    {
      byId := map[];
      for i := 0 to |probes|
        invariant E.ProbesIdentified(probes[..i]) && Indexes(byId, probes[..i])
      {
        var probe := probes[i];
        if !ValidUuid(probe.sensorId) {
          return false, byId;
        }
        if probe.sensorId in byId {
          RepeatedProbe(byId, probes, i);
          return false, byId;
        }
        IndexOneMore(byId, probes[..i], probe);
        assert probes[..i + 1] == probes[..i] + [probe];
        byId := byId[probe.sensorId := probe];
      }
      assert probes[..|probes|] == probes;
      ok := true;
    }

    /** The readings of the configured probes, and whether one is missing or unusable. */
    method ReadProbes(ids: seq<Id>, byId: map<Id, E.Probe>) returns (readings: seq<Option<real>>, condition: E.Condition)
      ensures |readings| == |ids| && forall i :: 0 <= i < |ids| ==> readings[i] == Lookup(byId, ids[i])
      ensures condition == if None in readings then E.ProbeInvalid else E.Healthy
    {
      condition, readings := E.Healthy, [];
      for index := 0 to |ids|
        invariant |readings| == index && forall i :: 0 <= i < index ==> readings[i] == Lookup(byId, ids[i])
        invariant condition == if None in readings then E.ProbeInvalid else E.Healthy
      {
        var id := ids[index];
        if id !in byId || !byId[id].valid || byId[id].celsius.None? || byId[id].celsius.value.NotFinite? {
          condition := E.ProbeInvalid;
          readings := readings + [None];
          assert readings[index].None?;
        } else {
          readings := readings + [Some(byId[id].celsius.value.value)];
        }
      }
    }

    /** Checks a snapshot and turns it into two measurements; an accepted snapshot's sequence
        number is remembered. */
    method ValidateSnapshot(ep: E.Endpoint, s: E.Snapshot, now: Time) returns (validation: E.Validation)
      modifies this`sequences
      ensures validation == E.Validate(ep, s, now, E.Previous(old(sequences), ep.id))
      ensures sequences == if validation.Taken? then old(sequences)[ep.id := E.SequenceState(s.bootId, s.sequence)]
                           else old(sequences)
    {
      var refusal, byId := CheckSnapshot(ep, s, now);
      if refusal.Some? {
        return E.Refused(refusal.value);
      }
      validation := Measure(ep, s, byId, now);
      var previous := E.Previous(sequences, ep.id);
      if previous.bootId == s.bootId && s.sequence <= previous.sequence {
        return E.Refused(E.SequenceStale);
      }
      sequences := sequences[ep.id := E.SequenceState(s.bootId, s.sequence)];
    }

    /** Reads and grades the configured probes of an indexed snapshot. */
    method Measure(ep: E.Endpoint, s: E.Snapshot, byId: map<Id, E.Probe>, now: Time) returns (validation: E.Validation)
      requires Indexes(byId, s.probes)
      ensures validation
           == E.Grade(ep, E.Reading(s.probes, ep.firstProbe), E.Reading(s.probes, ep.secondProbe), s.observedAt, now)
    {
      var readings, condition := ReadProbes([ep.firstProbe, ep.secondProbe], byId);
      LookupIsReading(byId, s.probes, ep.firstProbe);
      LookupIsReading(byId, s.probes, ep.secondProbe);
      assert None in readings <==> readings[0].None? || readings[1].None?;
      validation := Grade(ep, readings[0], readings[1], condition, s.observedAt, now);
    }

    method Grade(ep: E.Endpoint, a: Option<real>, b: Option<real>, found: E.Condition, observedAt: Time, now: Time)
      returns (validation: E.Validation)
      requires found == if a.None? || b.None? then E.ProbeInvalid else E.Healthy
      ensures validation == E.Grade(ep, a, b, observedAt, now)
    {
      var quality, condition := Good, found;
      if a.Some? && b.Some? && E.Abs(a.value - b.value) > ep.maximumDifference {
        quality, condition := Suspect, E.ProbeDisagreement;
      }
      if observedAt + ep.freshFor <= now {
        quality, condition := Stale, E.SnapshotStale;
      }
      var first := E.Measure(ep, ep.firstProbe, a, quality, observedAt, now);
      var second := E.Measure(ep, ep.secondProbe, b, quality, observedAt, now);
      validation := E.Taken(first, second, condition);
    }

    method CheckSnapshot(ep: E.Endpoint, s: E.Snapshot, now: Time) returns (refusal: Option<E.Condition>, byId: map<Id, E.Probe>)
      ensures refusal == E.Refusal(ep, s, now)
      ensures refusal.None? ==> Indexes(byId, s.probes)
    {
      if s.schemaVersion != "1.0" {
        return Some(E.SchemaUnsupported), map[];
      }
      if s.nodeId != ep.deviceId || s.bootId == "" || |s.bootId| > 128 || s.sequence == 0 {
        return Some(E.IdentityInvalid), map[];
      }
      if s.observedAt == 0 || s.observedAt > now + ep.maximumClockSkew {
        return Some(E.TimestampInvalid), map[];
      }
      if |s.probes| != 2 {
        return Some(E.ProbeCountInvalid), map[];
      }
      var ok;
      ok, byId := IndexProbes(s.probes);
      refusal := if ok then None else Some(E.ProbeIdentityInvalid);
    }

    /** One write to the store; `now` is the store's clock and `published` the event bus. */
    method Store(entry: State.Entry, now: Time, published: bool)
      requires Valid()
      modifies store
      ensures Valid() && store.Abs() == E.Store(old(store.Abs()), entry)
    {
      var stored := store.Set(entry, now, published);
    }

    method MarkUnavailable(ep: E.Endpoint, now: Time, published: bool)
      requires Valid()
      modifies store
      ensures Valid() && store.Abs() == E.MarkUnavailable(policies, old(store.Abs()), ep, now)
    {
      if ep.id in policies {
        Store(E.Unavailability(ep, ep.firstProbe, now), now, published);
        Store(E.Unavailability(ep, ep.secondProbe, now), now, published);
      }
    }

    method Report(ep: E.Endpoint, first: E.Measurement, second: E.Measurement, now: Time, published: bool)
      requires Valid()
      modifies store
      ensures Valid() && store.Abs() == E.Report(policies, old(store.Abs()), ep, first, second)
    {
      if ep.id in policies {
        Store(E.MeasuredEntry(ep, first), now, published);
        Store(E.MeasuredEntry(ep, second), now, published);
      }
    }

    /** One poll. The conditions are reported before the measurements are written, so a
        measurement can only replace the unavailability by its own quality. */
    method Poll(ep: E.Endpoint, reply: E.Reply, now: Time, published: bool)
      requires Valid()
      modifies this, store
      ensures Valid() && Abs() == E.Poll(old(Abs()), ep, reply, now)
    {
      if reply.NoReply? {
        MarkUnavailable(ep, now, published);
        return;
      }
      var validation := ValidateSnapshot(ep, reply.snapshot, now);
      if validation.Refused? {
        MarkUnavailable(ep, now, published);
        return;
      }
      if validation.condition != E.Healthy {
        MarkUnavailable(ep, now, published);
      }
      Report(ep, validation.first, validation.second, now, published);
    }
  }

  lemma {:induction false} RepeatedProbe(byId: map<Id, E.Probe>, probes: seq<E.Probe>, i: nat)
    requires i < |probes| && Indexes(byId, probes[..i]) && probes[i].sensorId in byId
    ensures !E.ProbesIdentified(probes)
  {
    var j :| 0 <= j < |probes[..i]| && probes[..i][j].sensorId == probes[i].sensorId;
    assert probes[j].sensorId == probes[i].sensorId;
  }

  lemma {:induction false} IndexOneMore(byId: map<Id, E.Probe>, probes: seq<E.Probe>, probe: E.Probe)
    requires E.ProbesIdentified(probes) && Indexes(byId, probes)
    requires ValidUuid(probe.sensorId) && probe.sensorId !in byId
    ensures E.ProbesIdentified(probes + [probe]) && Indexes(byId[probe.sensorId := probe], probes + [probe])
  {
    var longer := probes + [probe];
    var more := byId[probe.sensorId := probe];
    forall id | id in more
      ensures exists i :: 0 <= i < |longer| && longer[i].sensorId == id
    {
      if id == probe.sensorId {
        assert longer[|probes|].sensorId == id;
      } else {
        var i :| 0 <= i < |probes| && probes[i].sensorId == id;
        assert longer[i].sensorId == id;
      }
    }
  }
}
