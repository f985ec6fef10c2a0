/** When a poll is bad and what it leaves in the store, read off the fields of the reply. */
module Probes {
  import opened Domain
  import opened Esp32
  import State

  // ---------- What a reply says ----------

  /** Schema, identity, boot, sequence number, time and probe list are as they must be. */
  ghost predicate WellFormed(ep: Endpoint, s: Snapshot, now: Time) {
    && s.schemaVersion == "1.0" && s.nodeId == ep.deviceId
    && 1 <= |s.bootId| <= 128 && s.sequence > 0
    && s.observedAt != 0 && s.observedAt - now <= ep.maximumClockSkew
    && |s.probes| == 2 && ValidUuid(s.probes[0].sensorId) && ValidUuid(s.probes[1].sensorId)
    && s.probes[0].sensorId != s.probes[1].sensorId
  }

  /** The node has sent a snapshot of the same boot with the same or a higher number. */
  predicate Repeated(n: Node, ep: Endpoint, s: Snapshot) {
    ep.id in n.sequences && n.sequences[ep.id].bootId == s.bootId && s.sequence <= n.sequences[ep.id].sequence
  }

  /** The snapshot gives the temperature `c` for the probe. */
  ghost predicate Gives(s: Snapshot, probe: Id, c: real) {
    exists i :: 0 <= i < |s.probes| && s.probes[i] == Probe(probe, Some(Finite(c)), true)
  }

  ghost predicate Usable(s: Snapshot, probe: Id) {
    exists c :: Gives(s, probe, c)
  }

  /** Both probes have a temperature, and they are further apart than allowed. */
  ghost predicate Apart(ep: Endpoint, s: Snapshot) {
    exists a, b :: Gives(s, ep.firstProbe, a) && Gives(s, ep.secondProbe, b)
                   && (a - b > ep.maximumDifference || b - a > ep.maximumDifference)
  }

  predicate Old(ep: Endpoint, s: Snapshot, now: Time) {
    now - s.observedAt >= ep.freshFor
  }

  ghost predicate Rejected(n: Node, ep: Endpoint, reply: Reply, now: Time) {
    reply.NoReply? || !WellFormed(ep, reply.snapshot, now) || Repeated(n, ep, reply.snapshot)
  }

  /** Something is wrong with the node or a probe. */
  ghost predicate Troubled(n: Node, ep: Endpoint, reply: Reply, now: Time) {
    || Rejected(n, ep, reply, now)
    || !Usable(reply.snapshot, ep.firstProbe) || !Usable(reply.snapshot, ep.secondProbe)
    || Apart(ep, reply.snapshot) || Old(ep, reply.snapshot, now)
  }

  // ---------- The adapter's verdict is that ----------

  /** In a list without repeats the first entry of a probe is its only one. */
  lemma {:induction false} ReadingIs(s: Snapshot, probe: Id, c: real)
    requires |s.probes| == 2 && s.probes[0].sensorId != s.probes[1].sensorId
    ensures Reading(s.probes, probe) == Some(c) <==> Gives(s, probe, c)
  {
    var rest := s.probes[1..];
    assert rest[0] == s.probes[1] && rest[1..] == [];
    assert Reading(rest[1..], probe) == None;
    assert s.probes[0].sensorId != probe ==> Reading(s.probes, probe) == Reading(rest, probe);
    if Reading(s.probes, probe) == Some(c) {
      var i := if s.probes[0].sensorId == probe then 0 else 1;
      assert s.probes[i] == Probe(probe, Some(Finite(c)), true);
    }
  }

  lemma {:induction false} RefusedIff(n: Node, ep: Endpoint, reply: Reply, now: Time)
    ensures Outcome(n, ep, reply, now).Refused? <==> Rejected(n, ep, reply, now)
  {
    if reply.Reply? && |reply.snapshot.probes| == 2 {
      var probes := reply.snapshot.probes;
      assert ProbesIdentified(probes) <==>
             ValidUuid(probes[0].sensorId) && ValidUuid(probes[1].sensorId) && probes[0].sensorId != probes[1].sensorId;
    }
  }

  lemma {:induction false} DisagreeIff(ep: Endpoint, s: Snapshot)
    requires |s.probes| == 2 && s.probes[0].sensorId != s.probes[1].sensorId
    ensures Disagree(Reading(s.probes, ep.firstProbe), Reading(s.probes, ep.secondProbe), ep.maximumDifference) <==> Apart(ep, s)
    ensures Reading(s.probes, ep.firstProbe).Some? <==> Usable(s, ep.firstProbe)
    ensures Reading(s.probes, ep.secondProbe).Some? <==> Usable(s, ep.secondProbe)
  {
    forall probe, c ensures Reading(s.probes, probe) == Some(c) <==> Gives(s, probe, c) {
      ReadingIs(s, probe, c);
    }
    var a, b := Reading(s.probes, ep.firstProbe), Reading(s.probes, ep.secondProbe);
    if a.Some? {
      assert Gives(s, ep.firstProbe, a.value);
    }
    if b.Some? {
      assert Gives(s, ep.secondProbe, b.value);
    }
  }

  /** Main result: a poll is found bad exactly when there is no reply, the snapshot is
      malformed, dated too far ahead or repeated, a configured probe is absent, flagged, empty
      or not finite, the two are too far apart, or the snapshot is not fresh. */
  lemma {:induction false} BadIff(n: Node, ep: Endpoint, reply: Reply, now: Time)
    ensures IsBad(n, ep, reply, now) <==> Troubled(n, ep, reply, now)
  {
    RefusedIff(n, ep, reply, now);
    if !Rejected(n, ep, reply, now) {
      DisagreeIff(ep, reply.snapshot);
    }
  }

  // ---------- What the store gets ----------

  ghost function QualityOf(ep: Endpoint, s: Snapshot, probe: Id, now: Time): Quality {
    if !Usable(s, probe) then Invalid else if Old(ep, s, now) then Stale else if Apart(ep, s) then Suspect else Good
  }

  predicate Configured(ep: Endpoint, probe: Id) {
    probe == ep.firstProbe || probe == ep.secondProbe
  }

  function Stored(n: Node, probe: Id): Option<State.Entry> {
    if ProbeKey(probe) in n.store.values then Some(n.store.values[ProbeKey(probe)]) else None
  }

  /** The store has both probes unavailable as of `now`. */
  ghost predicate BothUnavailable(n: Node, ep: Endpoint, now: Time) {
    forall probe :: Configured(ep, probe) ==>
      Stored(n, probe).Some? && Stored(n, probe).value.quality == Unavailable && Stored(n, probe).value.observedAt == now
  }

  /** The store has the snapshot's reading of a probe, graded. */
  ghost predicate Holds(n: Node, ep: Endpoint, s: Snapshot, probe: Id, now: Time) {
    && Stored(n, probe).Some?
    && var entry := Stored(n, probe).value;
       && entry.quality == QualityOf(ep, s, probe, now) && entry.observedAt == s.observedAt && entry.freshFor == ep.freshFor
       && forall c :: Gives(s, probe, c) ==> entry.value == NewQuantityValue(Quantity(Temperature, Finite(c), Celsius))
  }

  lemma {:induction false} MarkedUnavailable(n: Node, ep: Endpoint, now: Time)
    requires ep.Valid() && now != 0 && ep.id in n.policies
    ensures BothUnavailable(n.(store := MarkUnavailable(n.policies, n.store, ep, now)), ep, now)
  {
  }

  lemma {:induction false} ReportedWhenDue(n: Node, ep: Endpoint, first: Measurement, second: Measurement, now: Time)
    requires ep.Valid() && now != 0 && ep.id in n.policies
    requires Due(ep, first, ep.firstProbe, now) && Due(ep, second, ep.secondProbe, now) && first.observedAt == second.observedAt
    ensures var n' := n.(store := Report(n.policies, n.store, ep, first, second));
            if first.observedAt <= now then
              && Stored(n', ep.firstProbe).Some? && Stored(n', ep.secondProbe).Some?
              && Measured(Stored(n', ep.firstProbe).value, first) && Measured(Stored(n', ep.secondProbe).value, second)
            else n'.store == n.store
  {
    assert MeasuredEntry(ep, first).Valid() <==> first.observedAt <= now;
    assert MeasuredEntry(ep, second).Valid() <==> second.observedAt <= now;
  }

  predicate Due(ep: Endpoint, m: Measurement, probe: Id, now: Time) {
    && m.sensorId == probe && m.receivedAt == now && m.freshFor == ep.freshFor && m.observedAt != 0
    && m.quality != UnknownQuality
  }

  predicate Measured(entry: State.Entry, m: Measurement) {
    && entry.quality == m.quality && entry.observedAt == m.observedAt && entry.freshFor == m.freshFor
    && entry.value == NewQuantityValue(Quantity(Temperature, Finite(m.celsius), Celsius))
  }

  /** Main result: what a poll leaves in the store, from the fields of the reply. A rejected
      one leaves both probes unavailable. Any other not dated after the poll leaves each
      probe's own reading, invalid, stale, suspect or good as the snapshot has it. One dated
      ahead is refused by the store: nothing changes if all is well, and both probes are
      unavailable otherwise. */
  lemma {:induction false} StoredExactly(n: Node, ep: Endpoint, reply: Reply, now: Time)
    requires ep.Valid() && now != 0 && ep.id in n.policies
    ensures var n' := Poll(n, ep, reply, now);
            if Rejected(n, ep, reply, now) then BothUnavailable(n', ep, now)
            else if reply.snapshot.observedAt <= now then
              Holds(n', ep, reply.snapshot, ep.firstProbe, now) && Holds(n', ep, reply.snapshot, ep.secondProbe, now)
            else if Troubled(n, ep, reply, now) then BothUnavailable(n', ep, now)
            else n'.store == n.store
  {
    RefusedIff(n, ep, reply, now);
    BadIff(n, ep, reply, now);
    MarkedUnavailable(n, ep, now);
    if !Rejected(n, ep, reply, now) {
      var s, outcome := reply.snapshot, Outcome(n, ep, reply, now);
      var marked := if outcome.condition == Healthy then n.store else MarkUnavailable(n.policies, n.store, ep, now);
      DisagreeIff(ep, s);
      ReportedWhenDue(n.(store := marked), ep, outcome.first, outcome.second, now);
      if s.observedAt <= now {
        HoldsReading(n, ep, reply, now, ep.firstProbe, outcome.first);
        HoldsReading(n, ep, reply, now, ep.secondProbe, outcome.second);
      }
    }
  }

  lemma {:induction false} HoldsReading(n: Node, ep: Endpoint, reply: Reply, now: Time, probe: Id, m: Measurement)
    requires reply.Reply? && WellFormed(ep, reply.snapshot, now)
    requires var n', s := Poll(n, ep, reply, now), reply.snapshot;
             && Stored(n', probe).Some? && Measured(Stored(n', probe).value, m)
             && m.quality == QualityOf(ep, s, probe, now) && m.observedAt == s.observedAt && m.freshFor == ep.freshFor
             && m.celsius == if Reading(s.probes, probe).Some? then Reading(s.probes, probe).value else 0.0
    ensures Holds(Poll(n, ep, reply, now), ep, reply.snapshot, probe, now)
  {
    forall c | Gives(reply.snapshot, probe, c) ensures m.celsius == c {
      ReadingIs(reply.snapshot, probe, c);
    }
  }

  /** Main result: once a snapshot has been taken, no snapshot of the same boot with the same
      or a lower number is, until one of another boot is taken; other nodes are not affected. */
  lemma {:induction false} TakenOnce(n: Node, ep: Endpoint, reply: Reply, now: Time, again: Reply, later: Time, other: Id)
    requires !Rejected(n, ep, reply, now)
    requires again.Reply? && again.snapshot.bootId == reply.snapshot.bootId && again.snapshot.sequence <= reply.snapshot.sequence
    ensures Rejected(Poll(n, ep, reply, now), ep, again, later)
    ensures other != ep.id ==> Previous(Poll(n, ep, reply, now).sequences, other) == Previous(n.sequences, other)
  {
    RefusedIff(n, ep, reply, now);
  }

  /** A rejected one leaves no trace in what counts as repeated. */
  lemma {:induction false} RejectedIsForgotten(n: Node, ep: Endpoint, reply: Reply, now: Time)
    requires Rejected(n, ep, reply, now)
    ensures Poll(n, ep, reply, now).sequences == n.sequences
  {
    RefusedIff(n, ep, reply, now);
  }
}
