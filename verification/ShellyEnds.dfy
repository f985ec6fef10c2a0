/** How commands end: which are confirmed by a reading older than themselves, and which are
    never settled at all. */
module ShellyEnds {
  import opened Domain
  import opened Shelly
  import opened ShellySteps
  import opened ShellyRuns
  import O = Output
  import OutputRuns
  import Safety

  // ---------- Polls that nothing interrupts ----------

  /** A poll that runs undisturbed: the device had taken the command it confirms before the
      reading exactly when that was pending as the poll began. Otherwise it is the safe
      response that the poll itself requested, and the reading is older than the command. */
  lemma {:induction false} SerialReadingFollowsDispatchIff(c: Config, s: System, ep: Endpoint, p: Poll, id: Id)
    requires Invariant(s) && ep.id !in s.flights
    requires p.first.service.commandId !in s.service.results && p.second.service.commandId !in s.service.results
    requires p.first.service.commandId != p.second.service.commandId
    requires Succeeded(PollStep(c, s, ep, p), id) && !Succeeded(s, id)
    ensures TakenBefore(s.log, |s.log|, id) <==> ep.equipmentId in s.pending && s.pending[ep.equipmentId].id == id
    ensures !TakenBefore(s.log, |s.log|, id) ==> id == Response(ep, p.now, p.first).id
  {
    LookedForm(s, ep, p);
    ReadAndLook(s, ep, p);
    LookedConfirms(c, s, Look(Read(s, ep, p.config, p.status, p.now), ep.id), ep, p, id);
  }

  /** The first two sections: the reading is taken and the tables are looked at. */
  ghost predicate JustLooked(s: System, s2: System, ep: Endpoint, now: Time) {
    && s2.service == s.service && s2.pending == s.pending && s.log <= s2.log
    && ep.id in s2.flights && s2.flights[ep.id].endpoint == ep && s2.flights[ep.id].now == now
    && s2.flights[ep.id].phase in {Unreached, Looked}
    && (s2.flights[ep.id].phase == Looked ==>
          ep.id in s2.marks && s2.marks[ep.id] == Mark(|s.log|, Lookup(s.pending, ep.equipmentId)))
  }

  lemma {:induction false} LookedForm(s: System, ep: Endpoint, p: Poll)
    requires ep.id !in s.flights
    ensures JustLooked(s, Look(Read(s, ep, p.config, p.status, p.now), ep.id), ep, p.now)
  {
    ReadForm(s, ep, p);
    LookForm(s, Read(s, ep, p.config, p.status, p.now), ep, p.now);
  }

  ghost predicate JustRead(s: System, read: System, ep: Endpoint, now: Time) {
    && read.service == s.service && read.pending == s.pending && s.log <= read.log
    && ep.id in read.flights && read.flights[ep.id].endpoint == ep && read.flights[ep.id].now == now
    && read.flights[ep.id].phase in {Unreached, Fetched}
    && (read.flights[ep.id].phase == Fetched ==>
          ep.id in read.marks && read.marks[ep.id] == Mark(|s.log|, Lookup(s.pending, ep.equipmentId)))
  }

  lemma {:induction false} ReadForm(s: System, ep: Endpoint, p: Poll)
    requires ep.id !in s.flights
    ensures JustRead(s, Read(s, ep, p.config, p.status, p.now), ep, p.now)
  {
  }

  lemma {:induction false} LookForm(s: System, read: System, ep: Endpoint, now: Time)
    requires JustRead(s, read, ep, now)
    ensures JustLooked(s, Look(read, ep.id), ep, now)
  {
  }

  lemma {:induction false} ReadAndLook(s: System, ep: Endpoint, p: Poll)
    requires Invariant(s)
    ensures Invariant(Look(Read(s, ep, p.config, p.status, p.now), ep.id))
  {
    ReadKeeps(s, ep, p.config, p.status, p.now);
    LookKeeps(Read(s, ep, p.config, p.status, p.now), ep.id);
  }

  lemma {:induction false} LookedConfirms(c: Config, s: System, s2: System, ep: Endpoint, p: Poll, id: Id)
    requires PendingOnRecord(s.pending, s.service.results, s.log) && Invariant(s2) && JustLooked(s, s2, ep, p.now)
    requires p.first.service.commandId !in s.service.results && p.second.service.commandId !in s.service.results
    requires p.first.service.commandId != p.second.service.commandId && !Succeeded(s, id)
    requires Succeeded(Settle(c, HandOver(c, s2, ep.id, p.stored, p.first), ep.id, p.second, p.bus), id)
    ensures TakenBefore(s.log, |s.log|, id) <==> ep.equipmentId in s.pending && s.pending[ep.equipmentId].id == id
    ensures !TakenBefore(s.log, |s.log|, id) ==> id == Response(ep, p.now, p.first).id
  {
    HandOverKeeps(c, s2, ep.id, p.stored, p.first);
    HandedConfirms(c, s, s2, HandOver(c, s2, ep.id, p.stored, p.first), ep, p, id);
  }

  lemma {:induction false} HandedConfirms(c: Config, s: System, s2: System, s3: System, ep: Endpoint, p: Poll, id: Id)
    requires PendingOnRecord(s.pending, s.service.results, s.log) && JustLooked(s, s2, ep, p.now)
    requires p.first.service.commandId !in s.service.results
    requires Invariant(s3) && s2.log <= s3.log && s3.marks == s2.marks && PendingFrom(s2, s3, Response(ep, p.now, p.first))
    requires s3.flights == s2.flights[ep.id := Handed(s2.flights[ep.id])]
    requires p.second.service.commandId !in s3.service.results && !Succeeded(s3, id)
    requires Succeeded(Settle(c, s3, ep.id, p.second, p.bus), id)
    ensures TakenBefore(s.log, |s.log|, id) <==> ep.equipmentId in s.pending && s.pending[ep.equipmentId].id == id
    ensures !TakenBefore(s.log, |s.log|, id) ==> id == Response(ep, p.now, p.first).id
  {
    ReadingFollowsDispatchIff(c, s3, ep.id, p.second, p.bus, id);
    assert s2.flights[ep.id].phase == Looked;
    SerialMark(s, s2, s3, ep, p.now, p.first, id);
  }

  lemma {:induction false} SerialMark(s: System, s2: System, s3: System, ep: Endpoint, now: Time, w: SubmitWorld, id: Id)
    requires PendingOnRecord(s.pending, s.service.results, s.log) && w.service.commandId !in s.service.results
    requires s2.pending == s.pending && s.log <= s2.log <= s3.log
    requires PendingFrom(s2, s3, Response(ep, now, w)) && ep.equipmentId in s3.pending && s3.pending[ep.equipmentId].id == id
    requires TakenBefore(s3.log, |s.log|, id) <==> Lookup(s.pending, ep.equipmentId) == Some(s3.pending[ep.equipmentId])
    ensures TakenBefore(s.log, |s.log|, id) <==> ep.equipmentId in s.pending && s.pending[ep.equipmentId].id == id
    ensures !TakenBefore(s.log, |s.log|, id) ==> id == Response(ep, now, w).id
  {
    TakenBeforeFixed(s.log, s3.log, |s.log|, id);
  }

  // ---------- Readings older than what they confirm ----------

  /** Everything that lets a command reach the device and be taken. */
  predicate Goes(c: Config, s: System, given: O.Command, w: SubmitWorld) {
    var command := O.Prepare(given, w.service);
    && O.Consults(s.service, given, w.service)
    && Verdict(s, command, w).1.Decided? && Verdict(s, command, w).1.decision.allowed
    && w.service.recordPublished && w.service.dispatchPublished
    && command.equipmentId in c.endpoints && SetSucceeds(w.replies, c.endpoints[command.equipmentId].retries)
  }

  /** Then it is acknowledged and pending. */
  lemma {:induction false} GoesThrough(c: Config, s: System, given: O.Command, w: SubmitWorld)
    requires Goes(c, s, given, w)
    ensures var s', command := Submit(c, s, given, w), O.Prepare(given, w.service);
            && command.id in s'.service.results && s'.service.results[command.id].command == command
            && s'.service.results[command.id].status == O.Acknowledged
            && s'.pending == s.pending[command.equipmentId := Pending(command.id, command.on, command.expiresAt)]
            && s'.log == s.log + [Judged(command, s.engine, w.clock, w.reader, Verdict(s, command, w).1)]
                         + [SentOut(command.id), Accepted(command.id)]
            && s'.engine == Verdict(s, command, w).0 && SamePolls(s, s') && s'.desired == s.desired[command.equipmentId := command.on]
  {
    var command, world := O.Prepare(given, w.service), WorldOf(c, s, given, w);
    assert O.Prepare(given, world) == command;
    assert O.Gates(command, world) == O.Pass;
  }

  /** The engine knows equipment that it allows a command for, and then takes its reports. */
  lemma {:induction false} AllowedIsRecorded(s: System, command: O.Command, w: SubmitWorld, on: bool, at: Time)
    requires Verdict(s, command, w).1.Decided? && Verdict(s, command, w).1.decision.allowed && at != 0
    ensures Safety.RecordReported(Verdict(s, command, w).0, command.equipmentId, on, at).1
  {
  }

  /** A command that wants what a poll under way has read, and that is taken before that poll
      settles, is at once on record as succeeded: whoever submits it, with no reading after
      the device took it. */
  lemma {:induction false} OvertakenReadingConfirms(
      c: Config, s: System, key: Id, given: O.Command, w: SubmitWorld, response: SubmitWorld, bus: Bus)
    requires key in s.flights && s.flights[key].phase == Reported && s.flights[key].now != 0
    requires Goes(c, s, given, w)
    requires var f, command := s.flights[key], O.Prepare(given, w.service);
             && command.equipmentId == f.endpoint.equipmentId && command.on == f.output && f.now < command.expiresAt
    ensures var f, command := s.flights[key], O.Prepare(given, w.service);
            var s' := Settle(c, Submit(c, s, given, w), key, response, bus);
            && Succeeded(s', command.id)
            && s'.log == s.log + [Judged(command, s.engine, w.clock, w.reader, Verdict(s, command, w).1)]
                         + [SentOut(command.id), Accepted(command.id)]
                         + [RecordedBySafety(Verdict(s, command, w).0, command.equipmentId, command.on, f.now, true)]
  {
    var f, command := s.flights[key], O.Prepare(given, w.service);
    GoesThrough(c, s, given, w);
    AllowedIsRecorded(s, command, w, command.on, f.now);
    var s1 := Submit(c, s, given, w);
    ConfirmedNow(c, s1, key, response, bus, command);
  }

  /** What is pending and acknowledged, wants what was read, and has time, is confirmed. */
  lemma {:induction false} ConfirmedNow(c: Config, s: System, key: Id, w: SubmitWorld, bus: Bus, command: O.Command)
    requires key in s.flights && s.flights[key].phase == Reported && s.flights[key].now != 0
    requires var f := s.flights[key];
             && f.endpoint.equipmentId == command.equipmentId && f.output == command.on && f.now < command.expiresAt
             && Safety.RecordReported(s.engine, command.equipmentId, command.on, f.now).1
    requires command.equipmentId in s.pending
    requires s.pending[command.equipmentId] == Pending(command.id, command.on, command.expiresAt)
    requires command.id in s.service.results && s.service.results[command.id].command == command
    requires s.service.results[command.id].status == O.Acknowledged
    ensures var s' := Settle(c, s, key, w, bus);
            && Succeeded(s', command.id)
            && s'.log == s.log + [RecordedBySafety(s.engine, command.equipmentId, command.on, s.flights[key].now, true)]
  {
    var f, over := s.flights[key], s.(flights := s.flights - {key});
    ReconcileForm(over, command.equipmentId, f.output, f.now, bus);
    assert Settle(c, s, key, w, bus) == Reconcile(over, command.equipmentId, f.output, f.now, bus);
  }

  /** It also happens without interruption: whenever healthy equipment without a pending
      command is found in its safe state although the other state is desired, and the safe
      response is admitted and taken, that response succeeds by the reading that caused it. */
  lemma {:induction false} StaleReadingConfirms(c: Config, s: System, ep: Endpoint, p: Poll)
    requires ep.id !in s.flights && ep.id in c.policies && ep.id !in s.failing && p.stored && p.now != 0
    requires ep.equipmentId !in s.pending && ep.equipmentId in s.desired && s.desired[ep.equipmentId] != ep.safeOn
    requires p.config == InitialState(ExpectedInitialState(ep.powerReturn)) && p.status == SwitchStatus(ep.safeOn, false)
    requires Goes(c, s, SafeCommand(ep, p.now), p.first) && p.now < p.now + 2 * ep.requestTimeout
    ensures var s', id := PollStep(c, s, ep, p), p.first.service.commandId;
            && Succeeded(s', id)
            && |s'.log| == |s.log| + 5 && s'.log[|s.log|] == Polled(ep.equipmentId, ep.safeOn, p.now)
            && s'.log[|s.log| + 3] == Accepted(id) && s'.log[|s.log| + 4].RecordedBySafety?
  {
    var s3 := Diverged(s, ep, p);
    DivergenceResponds(c, s, ep, p);
    StaleResponse(c, s3, ep, p);
  }

  /** The state in which the response to the divergence is submitted. */
  function Diverged(s: System, ep: Endpoint, p: Poll): System {
    s.(
      flights := s.flights[ep.id := Flight(ep, Reported, p.now, ep.safeOn, false, Lookup(s.desired, ep.equipmentId), false)],
      marks := s.marks[ep.id := Mark(|s.log|, Lookup(s.pending, ep.equipmentId))],
      failing := s.failing[ep.id := true],
      log := s.log + [Polled(ep.equipmentId, ep.safeOn, p.now)])
  }

  lemma {:induction false} DivergenceResponds(c: Config, s: System, ep: Endpoint, p: Poll)
    requires ep.id !in s.flights && ep.id in c.policies && ep.id !in s.failing && p.stored
    requires ep.equipmentId !in s.pending && ep.equipmentId in s.desired && s.desired[ep.equipmentId] != ep.safeOn
    requires p.config == InitialState(ExpectedInitialState(ep.powerReturn)) && p.status == SwitchStatus(ep.safeOn, false)
    ensures PollStep(c, s, ep, p)
         == Settle(c, Submit(c, Diverged(s, ep, p), SafeCommand(ep, p.now), p.first), ep.id, p.second, p.bus)
  {
    var read := Read(s, ep, p.config, p.status, p.now);
    assert read == s.(
      flights := s.flights[ep.id := Flight(ep, Fetched, p.now, ep.safeOn, false, None, false)],
      marks := s.marks[ep.id := Mark(|s.log|, Lookup(s.pending, ep.equipmentId))],
      log := s.log + [Polled(ep.equipmentId, ep.safeOn, p.now)]);
    LookedResponds(c, s, read, Look(read, ep.id), ep, p);
  }

  lemma {:induction false} LookedResponds(c: Config, s: System, read: System, s2: System, ep: Endpoint, p: Poll)
    requires ep.id in c.policies && ep.id !in s.failing && p.stored && ep.equipmentId in s.desired
    requires ep.equipmentId !in s.pending && s.desired[ep.equipmentId] != ep.safeOn
    requires read == s.(
      flights := s.flights[ep.id := Flight(ep, Fetched, p.now, ep.safeOn, false, None, false)],
      marks := s.marks[ep.id := Mark(|s.log|, Lookup(s.pending, ep.equipmentId))],
      log := s.log + [Polled(ep.equipmentId, ep.safeOn, p.now)])
    requires s2 == Look(read, ep.id)
    ensures HandOver(c, s2, ep.id, p.stored, p.first) == Submit(c, Diverged(s, ep, p), SafeCommand(ep, p.now), p.first)
  {
    var f := s2.flights[ep.id];
    assert f == Flight(ep, Looked, p.now, ep.safeOn, false, Some(s.desired[ep.equipmentId]), false);
    var s3 := s2.(flights := s2.flights[ep.id := f.(phase := Reported)]);
    assert s3.flights == Diverged(s, ep, p).flights;
    assert s3.(failing := s3.failing[ep.id := true]) == Diverged(s, ep, p);
  }

  lemma {:induction false} StaleResponse(c: Config, s: System, ep: Endpoint, p: Poll)
    requires ep.id in s.flights && p.now != 0 && p.now < p.now + 2 * ep.requestTimeout
    requires s.flights[ep.id] == Flight(ep, Reported, p.now, ep.safeOn, false, s.flights[ep.id].desired, false)
    requires Goes(c, s, SafeCommand(ep, p.now), p.first)
    ensures var id := p.first.service.commandId;
            var s' := Settle(c, Submit(c, s, SafeCommand(ep, p.now), p.first), ep.id, p.second, p.bus);
            && Succeeded(s', id) && s.log <= s'.log && |s'.log| == |s.log| + 4
            && s'.log[|s.log| + 2] == Accepted(id) && s'.log[|s.log| + 3].RecordedBySafety?
  {
    OvertakenReadingConfirms(c, s, ep.id, SafeCommand(ep, p.now), p.first, p.second, p.bus);
  }

  // ---------- Commands that are never settled ----------

  /** A recorded command that is not pending stays as it is, whatever happens. */
  lemma {:induction false} OrphanStays(c: Config, s: System, op: Op, id: Id)
    requires Invariant(s) && Sound(s, op) && id in s.service.results && !IsPending(s, id)
    ensures var s' := Step(c, s, op);
            && Invariant(s') && id in s'.service.results && s'.service.results[id] == s.service.results[id]
            && !IsPending(s', id)
  {
    StepKeeps(c, s, op);
    OrphanFollows(s, Step(c, s, op), id);
  }

  lemma {:induction false} OrphanFollows(s: System, s': System, id: Id)
    requires Follows(s, s') && id in s.service.results && !IsPending(s, id)
    ensures id in s'.service.results && s'.service.results[id] == s.service.results[id] && !IsPending(s', id)
  {
  }

  /** Over every run. */
  lemma {:induction false} OrphanNeverSettled(c: Config, s: System, ops: seq<Op>, id: Id)
    requires Invariant(s) && SoundRun(c, s, ops) && id in s.service.results && !IsPending(s, id)
    ensures id in Run(c, s, ops).service.results && Run(c, s, ops).service.results[id] == s.service.results[id]
    decreases |ops|
  {
    if ops != [] {
      OrphanStays(c, s, ops[0], id);
      OrphanNeverSettled(c, Step(c, s, ops[0]), ops[1..], id);
    }
  }

  /** Main result: a poll that ends at or after the deadline of an acknowledged command of its
      equipment settles that command, as expired, exactly when it is the one still pending. */
  lemma {:induction false} SettledAtDeadlineIff(c: Config, s: System, key: Id, w: SubmitWorld, bus: Bus, id: Id)
    requires Invariant(s) && w.service.commandId !in s.service.results
    requires key in s.flights && s.flights[key].phase in {Signalled, Reported} && s.flights[key].now != 0
    requires id in s.service.results && s.service.results[id].status == O.Acknowledged
    requires var command := s.service.results[id].command;
             command.equipmentId == s.flights[key].endpoint.equipmentId && command.expiresAt <= s.flights[key].now
    ensures var s', equipment := Settle(c, s, key, w, bus), s.flights[key].endpoint.equipmentId;
            && id in s'.service.results
            && (s'.service.results[id].status == O.Expired <==> equipment in s.pending && s.pending[equipment].id == id)
            && (s'.service.results[id].status != O.Expired ==> s'.service.results[id] == s.service.results[id])
  {
    var f, over := s.flights[key], s.(flights := s.flights - {key});
    var equipment := f.endpoint.equipmentId;
    if equipment in s.pending && s.pending[equipment].id == id {
      LogGrows(s, over);
      ExpiredNow(c, over, f, w, bus, f.phase == Signalled, id);
    } else {
      SettleKeeps(c, s, key, w, bus);
      OnlyUnderItsEquipment(s, id);
      OrphanFollows(s, Settle(c, s, key, w, bus), id);
    }
  }

  lemma {:induction false} OnlyUnderItsEquipment(s: System, id: Id)
    requires Core(s) && id in s.service.results
    requires var equipment := s.service.results[id].command.equipmentId;
             equipment in s.pending ==> s.pending[equipment].id != id
    ensures !IsPending(s, id)
  {
  }

  lemma {:induction false} ExpiredNow(c: Config, s: System, f: Flight, w: SubmitWorld, bus: Bus, force: bool, id: Id)
    requires Core(s) && w.service.commandId !in s.service.results && f.now != 0
    requires f.endpoint.equipmentId in s.pending && s.pending[f.endpoint.equipmentId].id == id
    requires s.service.results[id].status == O.Acknowledged && s.service.results[id].command.expiresAt <= f.now
    ensures var s' := ExpireIfNeeded(c, s, f.endpoint, f.now, force, w, bus);
            id in s'.service.results && s'.service.results[id].status == O.Expired
  {
    var equipment := f.endpoint.equipmentId;
    var s1 := Expire(s, equipment, f.now, bus);
    ExpireExpires(s, equipment, f.now, bus);
    ExpireKeeps(s, equipment, f.now, bus);
    ExpiredStays(c, s1, f.endpoint, f.now, w, id);
  }

  lemma {:induction false} ExpireExpires(s: System, equipment: Id, at: Time, bus: Bus)
    requires equipment in s.pending && O.Reports(s.service, s.pending[equipment].id, at)
    requires s.service.results[s.pending[equipment].id].command.expiresAt <= at
    ensures var s', id := Expire(s, equipment, at, bus), s.pending[equipment].id;
            && id in s'.service.results && s'.service.results[id].status == O.Expired
            && s'.service.results[id].reason == O.ByAdapter("shelly.reconciliation_expired")
            && s'.pending == (if bus.expirePublished then s.pending - {equipment} else s.pending)
  {
  }

  lemma {:induction false} ExpiredStays(c: Config, s: System, ep: Endpoint, at: Time, w: SubmitWorld, id: Id)
    requires Core(s) && w.service.commandId !in s.service.results && id in s.service.results
    ensures var s' := Failure(c, s, ep, true, at, w);
            id in s'.service.results && s'.service.results[id] == s.service.results[id]
  {
    var s1 := s.(failing := s.failing[ep.id := true]);
    if Failure(c, s, ep, true, at, w) == Submit(c, s1, SafeCommand(ep, at), w) {
      SubmitShape(c, s1, SafeCommand(ep, at), w);
    }
  }

  lemma {:induction false} Displaces(c: Config, s: System, given: O.Command, w: SubmitWorld)
    requires Core(s) && OutputRuns.Fresh(s.service, O.Prepare(given, w.service)) && Goes(c, s, given, w)
    requires O.Prepare(given, w.service).equipmentId in s.pending
    ensures var s', displaced := Submit(c, s, given, w), s.pending[O.Prepare(given, w.service).equipmentId].id;
            && displaced in s'.service.results && s'.service.results[displaced] == s.service.results[displaced]
            && !IsPending(s', displaced)
  {
    var command, s' := O.Prepare(given, w.service), Submit(c, s, given, w);
    GoesThrough(c, s, given, w);
    SubmitShape(c, s, given, w);
    Displaced(s, s', command);
  }

  lemma {:induction false} Displaced(s: System, s': System, command: O.Command)
    requires Core(s) && command.equipmentId in s.pending && command.id !in s.service.results
    requires s'.pending == s.pending[command.equipmentId := Pending(command.id, command.on, command.expiresAt)]
    ensures !IsPending(s', s.pending[command.equipmentId].id)
  {
  }

  /** Main result: a command for the same equipment that the device takes displaces the one
      pending; that then stays as it is, acknowledged, in every run from there, past its
      deadline and for good. */
  lemma {:induction false} SupersededNeverSettled(c: Config, s: System, given: O.Command, w: SubmitWorld, ops: seq<Op>)
    requires Invariant(s) && OutputRuns.Fresh(s.service, O.Prepare(given, w.service)) && Goes(c, s, given, w)
    requires O.Prepare(given, w.service).equipmentId in s.pending
    requires SoundRun(c, Submit(c, s, given, w), ops)
    ensures var displaced := s.pending[O.Prepare(given, w.service).equipmentId].id;
            var later := Run(c, Submit(c, s, given, w), ops);
            displaced in later.service.results && later.service.results[displaced] == s.service.results[displaced]
  {
    var command, s' := O.Prepare(given, w.service), Submit(c, s, given, w);
    var displaced := s.pending[command.equipmentId].id;
    StepKeeps(c, s, SubmitOp(given, w));
    Displaces(c, s, given, w);
    OrphanNeverSettled(c, s', ops, displaced);
  }

  // ---------- Dispatch ----------

  /** What becomes of a command that the policy admits and the bus announces: it is
      acknowledged exactly when its equipment has an endpoint and one of the first attempts,
      one more than the retries, succeeds; without an endpoint it is rejected; otherwise
      dispatch fails. Only an acknowledged one is pending and desired. */
  lemma {:induction false} SentOutcome(c: Config, s: System, given: O.Command, w: SubmitWorld, command: O.Command)
    requires OutputRuns.Filled(given, w.service, command) && O.Consults(s.service, given, w.service)
    requires Verdict(s, command, w).1.Decided? && Verdict(s, command, w).1.decision.allowed
    requires w.service.recordPublished && w.service.dispatchPublished
    ensures var s', known := Submit(c, s, given, w), command.equipmentId in c.endpoints;
            var taken := known && exists i :: 0 <= i < |w.replies| && i <= c.endpoints[command.equipmentId].retries && w.replies[i];
            && command.id in s'.service.results
            && var r := s'.service.results[command.id];
               && r.command == command
               && (r.status == O.Acknowledged <==> taken)
               && (r.status == O.Failed && r.reason == O.AdapterRejected <==> !known)
               && (r.status == O.Failed && r.reason == O.DispatchFailed <==> known && !taken)
               && (taken ==> r.acknowledgedAt == Some(if w.acceptedAt != 0 then w.acceptedAt else w.service.acknowledgementClock))
               && (!taken ==> s'.pending == s.pending && s'.desired == s.desired)
  {
    var world := WorldOf(c, s, given, w);
    assert command == O.Prepare(given, w.service);
    ConsultShape(c, s, given, w);
    ServiceOutcome(s.service, given, w.service, world, command);
    DeliveredOutcome(Consult(c, s, given, w), O.Submit(s.service, given, world), Outcome(c, command, w));
  }

  lemma {:induction false} DeliveredOutcome(s: System, submission: O.Submission, outcome: O.DispatchOutcome)
    ensures var s' := Deliver(s, submission, outcome);
            && s'.service == submission.service
            && (!(outcome.Answered? && outcome.accepted) ==> s'.pending == s.pending && s'.desired == s.desired)
  {
  }

  lemma {:induction false} ServiceOutcome(s: O.Service, given: O.Command, w: O.World, world: O.World, command: O.Command)
    requires world == w.(evaluation := world.evaluation, dispatch := world.dispatch)
    requires OutputRuns.Filled(given, w, command) && O.Consults(s, given, w)
    requires world.evaluation.Decided? && world.evaluation.decision.allowed && w.recordPublished && w.dispatchPublished
    ensures var submission := O.Submit(s, given, world);
            && submission.sent == Some(command) && command.id in submission.service.results
            && var r := submission.service.results[command.id];
               && r.command == command
               && (match world.dispatch
                   case DispatchError => r.status == O.Failed && r.reason == O.DispatchFailed
                   case Answered(accepted, at) =>
                     if accepted then r.status == O.Acknowledged && r.acknowledgedAt == Some(if at != 0 then at else w.acknowledgementClock)
                     else r.status == O.Failed && r.reason == O.AdapterRejected)
  {
    assert command == O.Prepare(given, w);
    assert O.Prepare(given, world) == command;
    OutputRuns.UnrecordedMeans(s, given, world, command);
    OutputRuns.RecordMeans(s, given, world, command);
  }

  // ---------- Failures ----------

  /** A poll has a reading exactly when the device answers both requests and its power-return
      setting is the configured one. */
  lemma {:induction false} ReadIff(s: System, ep: Endpoint, config: ConfigReply, status: StatusReply, now: Time)
    requires ep.id !in s.flights
    ensures var s' := Read(s, ep, config, status, now);
            && ep.id in s'.flights && s'.flights[ep.id].endpoint == ep && s'.flights[ep.id].now == now
            && (s'.flights[ep.id].phase == Fetched <==>
                  && config.InitialState? && status.SwitchStatus?
                  && config.text == if ep.powerReturn == ReturnRestore then "restore_last" else "off")
            && (s'.flights[ep.id].phase != Fetched ==> s'.flights[ep.id].phase == Unreached && s'.log == s.log)
            && (s'.flights[ep.id].phase == Fetched ==>
                  && s'.flights[ep.id].output == status.output && s'.flights[ep.id].faulty == status.faulty
                  && s'.log == s.log + [Polled(ep.equipmentId, status.output, now)])
  {
  }

  /** What a reading is held against: the state last commanded, or the safe one. */
  function Wanted(f: Flight): bool {
    match f.desired
    case Some(on) => on
    case None => f.endpoint.safeOn
  }

  predicate Failing(s: System, ep: Endpoint) {
    ep.id in s.failing && s.failing[ep.id]
  }

  /** Main result: handing over makes an endpoint failing exactly when the poll was not
      answered, the device reports a fault, or it shows another state than wanted with nothing
      pending; it makes it healthy exactly when it shows the wanted state without a fault; a
      report the store did not take, or that shows another state while something is pending,
      leaves it as it was. */
  lemma {:induction false} FailingExactlyWhen(c: Config, s: System, key: Id, stored: bool, w: SubmitWorld)
    requires key in s.flights && s.flights[key].phase in {Unreached, Looked} && s.flights[key].endpoint.id in c.policies
    ensures var f, s' := s.flights[key], HandOver(c, s, key, stored, w);
            var told := f.phase == Looked && stored;
            Failing(s', f.endpoint) <==>
              || f.phase == Unreached
              || (told && f.faulty) || (told && !f.hasPending && f.output != Wanted(f))
              || (Failing(s, f.endpoint) && !(told && !f.faulty && f.output == Wanted(f)))
  {
    var f := s.flights[key];
    var s1 := s.(flights := s.flights[key := f.(phase := if f.phase == Unreached then Signalled else Reported)]);
    FailureSets(c, s1, f.endpoint, true, f.now, w);
    FailureSets(c, s1, f.endpoint, false, f.now, w);
  }

  lemma {:induction false} FailureSets(c: Config, s: System, ep: Endpoint, active: bool, at: Time, w: SubmitWorld)
    requires ep.id in c.policies
    ensures Failing(Failure(c, s, ep, active, at, w), ep) <==> active
  {
    SubmitKeepsFailing(c, s.(failing := s.failing[ep.id := active]), SafeCommand(ep, at), w);
  }

  lemma {:induction false} SubmitKeepsFailing(c: Config, s: System, given: O.Command, w: SubmitWorld)
    ensures Submit(c, s, given, w).failing == s.failing
  {
    ConsultShape(c, s, given, w);
  }

  /** An endpoint the coordinator has no policy for changes nothing by failing or recovering. */
  lemma {:induction false} WithoutPolicyNothingHappens(
      c: Config, s: System, ep: Endpoint, active: bool, at: Time, w: SubmitWorld)
    requires ep.id !in c.policies
    ensures Failure(c, s, ep, active, at, w) == s
  {
  }

  /** Any number of failures in a row, with whatever each would meet. */
  function Failures(c: Config, s: System, ep: Endpoint, signals: seq<(Time, SubmitWorld)>): System
    decreases |signals|
  {
    if signals == [] then s else Failures(c, Failure(c, s, ep, true, signals[0].0, signals[0].1), ep, signals[1..])
  }

  /** Main result: repeated failures do nothing beyond the first; in particular they send no
      second safe command. */
  lemma {:induction false} RepeatedFailuresSendOnce(c: Config, s: System, ep: Endpoint, signals: seq<(Time, SubmitWorld)>)
    requires ep.id in c.policies && signals != []
    ensures Failures(c, s, ep, signals) == Failure(c, s, ep, true, signals[0].0, signals[0].1)
  {
    var first := Failure(c, s, ep, true, signals[0].0, signals[0].1);
    FailureSets(c, s, ep, true, signals[0].0, signals[0].1);
    FailingStays(c, first, ep, signals[1..]);
  }

  lemma {:induction false} FailingStays(c: Config, s: System, ep: Endpoint, signals: seq<(Time, SubmitWorld)>)
    requires ep.id in c.policies && Failing(s, ep)
    ensures Failures(c, s, ep, signals) == s
    decreases |signals|
  {
    if signals != [] {
      assert s.failing[ep.id := true] == s.failing;
      assert Failure(c, s, ep, true, signals[0].0, signals[0].1) == s;
      FailingStays(c, s, ep, signals[1..]);
    }
  }

  /** On entering failure the configured safe state is requested: if the command goes through,
      it is what is pending and desired, until twice the request timeout. */
  lemma {:induction false} FailureRequestsSafeState(c: Config, s: System, ep: Endpoint, at: Time, w: SubmitWorld)
    requires ep.id in c.policies && !Failing(s, ep) && Goes(c, s, SafeCommand(ep, at), w)
    ensures var s', id := Failure(c, s, ep, true, at, w), w.service.commandId;
            && ep.equipmentId in s'.pending && s'.pending[ep.equipmentId] == Pending(id, ep.safeOn, at + 2 * ep.requestTimeout)
            && ep.equipmentId in s'.desired && s'.desired[ep.equipmentId] == ep.safeOn
            && id in s'.service.results && s'.service.results[id].status == O.Acknowledged
            && s'.service.results[id].command.requester == "adapter-failure-policy"
            && s'.service.results[id].command.issuedAt == at
  {
    var s1 := s.(failing := s.failing[ep.id := true]);
    assert Goes(c, s1, SafeCommand(ep, at), w);
    GoesThrough(c, s1, SafeCommand(ep, at), w);
  }

  /** The key of a safe response tells its time, so that none is taken for a repetition of
      one from another time. */
  lemma {:induction false} ResponsesHaveOwnKeys(ep: Endpoint, a: Time, b: Time)
    requires SafeCommand(ep, a).idempotencyKey == SafeCommand(ep, b).idempotencyKey
    ensures a == b
  {
    var prefix := "adapter-failure/" + ep.id + "/";
    assert (prefix + TimeText(a))[|prefix|..] == TimeText(a) && (prefix + TimeText(b))[|prefix|..] == TimeText(b);
    TimeTextInjective(a, b);
  }

  lemma {:induction false} DecimalDigits(n: nat)
    ensures |Decimal(n)| > 0 && forall i :: 0 <= i < |Decimal(n)| ==> '0' <= Decimal(n)[i] <= '9'
    decreases n
  {
    if n >= 10 {
      DecimalDigits(n / 10);
    }
  }

  lemma {:induction false} DecimalInjective(a: nat, b: nat)
    requires Decimal(a) == Decimal(b)
    ensures a == b
    decreases a
  {
    DecimalDigits(a / 10);
    DecimalDigits(b / 10);
    if a >= 10 && b >= 10 {
      assert Decimal(a)[..|Decimal(a)| - 1] == Decimal(a / 10) && Decimal(b)[..|Decimal(b)| - 1] == Decimal(b / 10);
      assert Decimal(a)[|Decimal(a)| - 1] == Decimal(b)[|Decimal(b)| - 1];
      DecimalInjective(a / 10, b / 10);
    }
  }

  lemma {:induction false} SignShows(a: Time)
    ensures TimeText(a) != [] && (a < 0 <==> TimeText(a)[0] == '-')
    ensures a < 0 ==> TimeText(a)[1..] == Decimal(-a)
  {
    DecimalDigits(if a < 0 then -a else a);
  }

  lemma {:induction false} TimeTextInjective(a: Time, b: Time)
    requires TimeText(a) == TimeText(b)
    ensures a == b
  {
    SignShows(a);
    SignShows(b);
    if a >= 0 {
      DecimalInjective(a, b);
    } else {
      DecimalInjective(-a, -b);
    }
  }

  /** What a poll that is answered, stored and without a fault makes of the endpoint, from the
      tables as they were: failing when the output is not the wanted one and nothing is
      pending, healthy when it is, and as before while a command is pending. */
  lemma {:induction false} PolledFailing(c: Config, s: System, ep: Endpoint, p: Poll)
    requires ep.id !in s.flights && ep.id in c.policies && p.stored
    requires p.config == InitialState(ExpectedInitialState(ep.powerReturn)) && p.status.SwitchStatus? && !p.status.faulty
    ensures var s' := HandOver(c, Look(Read(s, ep, p.config, p.status, p.now), ep.id), ep.id, p.stored, p.first);
            var wanted := if ep.equipmentId in s.desired then s.desired[ep.equipmentId] else ep.safeOn;
            Failing(s', ep) <==> p.status.output != wanted && (ep.equipmentId !in s.pending || Failing(s, ep))
  {
    var read := Read(s, ep, p.config, p.status, p.now);
    var looked := Look(read, ep.id);
    assert read.flights[ep.id] == Flight(ep, Fetched, p.now, p.status.output, false, None, false);
    assert read.desired == s.desired && read.pending == s.pending && read.failing == s.failing;
    assert looked.flights[ep.id].desired == Lookup(s.desired, ep.equipmentId);
    assert looked.failing == s.failing;
    FailingExactlyWhen(c, looked, ep.id, p.stored, p.first);
  }

  /** Expiry of a pending command, at its deadline or with the device out of reach, makes the
      endpoint failing. */
  lemma {:induction false} ExpirySignalsFailure(
      c: Config, s: System, ep: Endpoint, at: Time, force: bool, w: SubmitWorld, bus: Bus)
    requires ep.id in c.policies && ep.equipmentId in s.pending && (force || s.pending[ep.equipmentId].expiresAt <= at)
    ensures Failing(ExpireIfNeeded(c, s, ep, at, force, w, bus), ep)
  {
    FailureSets(c, Expire(s, ep.equipmentId, at, bus), ep, true, at, w);
  }
}
