/** The Shelly adapter together with the services it drives: the safety engine, the output
    service, and the coordinator's edge-triggered safe response. A poll is four sections,
    between which anything else may happen; what the network, the clocks, the sensors and
    the event bus do is given. */
module Shelly {
  import opened Domain
  import O = Output
  import Safety
  import SafetyRuns

  datatype PowerReturn = ReturnOff | ReturnRestore

  datatype Endpoint = Endpoint(
    id: Id, equipmentId: Id, requestTimeout: Duration, retries: nat, safeOn: bool, powerReturn: PowerReturn)

  datatype Pending = Pending(id: Id, want: bool, expiresAt: Time)

  /** What happened, in order: the trail that a claim of success must leave. Judgements and
      records carry the engine state they were made in and what the engine answered. */
  datatype Event =
    | Judged(judged: O.Command, engine: Safety.Engine, clock: Time, reader: Safety.Reader, verdict: Safety.Evaluation)
    | SentOut(command: Id)
    | Accepted(command: Id)
    | Polled(equipment: Id, output: bool, at: Time)
    | RecordedBySafety(before: Safety.Engine, equipment: Id, on: bool, at: Time, recorded: bool)
    | Lapsed(command: Id, at: Time)

  /** Endpoints by equipment, and the endpoints the coordinator has a policy for. */
  datatype Config = Config(endpoints: map<Id, Endpoint>, policies: set<Id>)

  /** How far a poll is: failed and not yet signalled, or signalled; or the device's status
      is read, then the tables are, then the report is handed over. */
  datatype Phase = Unreached | Signalled | Fetched | Looked | Reported

  /** What a poll under way holds in its own variables. */
  datatype Flight = Flight(
    endpoint: Endpoint, phase: Phase, now: Time, output: bool, faulty: bool, desired: Option<bool>, hasPending: bool)

  /** History: where in the log a poll's reading is, and what was pending when it was taken. */
  datatype Mark = Mark(reading: nat, was: Option<Pending>)

  datatype System = System(
    engine: Safety.Engine,
    service: O.Service,
    pending: map<Id, Pending>,
    desired: map<Id, bool>,
    failing: map<Id, bool>,
    flights: map<Id, Flight>,
    marks: map<Id, Mark>,
    log: seq<Event>)

  function Lookup<V>(table: map<Id, V>, id: Id): Option<V> {
    if id in table then Some(table[id]) else None
  }

  // ---------- Submitting ----------

  /** What a submission meets: the service's world, the clock and the sensor values that the
      policy sees, the answers to successive `Switch.Set` calls, and the adapter's clock once
      one is accepted. */
  datatype SubmitWorld = SubmitWorld(
    service: O.World, clock: Time, reader: Safety.Reader, replies: seq<bool>, acceptedAt: Time)

  /** Some attempt within the allowed number succeeds. */
  predicate SetSucceeds(replies: seq<bool>, retries: nat) {
    exists i :: 0 <= i <= retries && i < |replies| && replies[i]
  }

  function Outcome(c: Config, command: O.Command, w: SubmitWorld): O.DispatchOutcome {
    if command.equipmentId !in c.endpoints then O.Answered(false, 0)
    else if !SetSucceeds(w.replies, c.endpoints[command.equipmentId].retries) then O.DispatchError
    else O.Answered(true, w.acceptedAt)
  }

  function IntentOf(command: O.Command): Safety.Intent {
    Safety.Intent(command.equipmentId, command.on, command.issuedAt)
  }

  /** What the safety engine says to a command, and the state that leaves it in. */
  function Verdict(s: System, command: O.Command, w: SubmitWorld): (Safety.Engine, Safety.Evaluation) {
    Safety.Evaluate(s.engine, IntentOf(command), w.clock, w.reader)
  }

  /** The service's world, with the policy and the executor filled in. */
  function WorldOf(c: Config, s: System, given: O.Command, w: SubmitWorld): O.World {
    var command := O.Prepare(given, w.service);
    w.service.(evaluation := Verdict(s, command, w).1, dispatch := Outcome(c, command, w))
  }

  /** The policy is asked, if the service comes that far. */
  function Consult(c: Config, s: System, given: O.Command, w: SubmitWorld): System {
    var command := O.Prepare(given, w.service);
    if !O.Consults(s.service, given, w.service) then s
    else
      var (engine, verdict) := Verdict(s, command, w);
      s.(engine := engine, log := s.log + [Judged(command, s.engine, w.clock, w.reader, verdict)])
  }

  /** What the service's dispatch leaves in the adapter. */
  function Deliver(s: System, submission: O.Submission, outcome: O.DispatchOutcome): System {
    if submission.sent.None? then s.(service := submission.service)
    else
      var command := submission.sent.value;
      if outcome.Answered? && outcome.accepted then
        s.(
          service := submission.service,
          pending := s.pending[command.equipmentId := Pending(command.id, command.on, command.expiresAt)],
          desired := s.desired[command.equipmentId := command.on],
          log := s.log + [SentOut(command.id), Accepted(command.id)])
      else s.(service := submission.service, log := s.log + [SentOut(command.id)])
  }

  /** A submission through the service to this adapter. */
  function Submit(c: Config, s: System, given: O.Command, w: SubmitWorld): System {
    Deliver(
      Consult(c, s, given, w),
      O.Submit(s.service, given, WorldOf(c, s, given, w)),
      Outcome(c, O.Prepare(given, w.service), w))
  }

  // ---------- The coordinator's response to failures ----------

  function Decimal(n: nat): string {
    if n < 10 then [('0' as int + n) as char] else Decimal(n / 10) + [('0' as int + n % 10) as char]
  }

  function TimeText(t: Time): string {
    if t < 0 then "-" + Decimal(-t) else Decimal(t)
  }

  const FAILURE_REQUESTER := "adapter-failure-policy"

  function SafeCommand(ep: Endpoint, at: Time): O.Command {
    O.Command(
      "", "adapter-failure/" + ep.id + "/" + TimeText(at), "", ep.equipmentId, FAILURE_REQUESTER,
      at, at + 2 * ep.requestTimeout, None, ep.safeOn)
  }

  /** Observes availability; the safe state is requested on entering failure only. */
  function Failure(c: Config, s: System, ep: Endpoint, active: bool, at: Time, w: SubmitWorld): System {
    if ep.id !in c.policies then s
    else
      var was := ep.id in s.failing && s.failing[ep.id];
      var s1 := s.(failing := s.failing[ep.id := active]);
      if active && !was then Submit(c, s1, SafeCommand(ep, at), w) else s1
  }

  // ---------- Settling what is pending ----------

  const EXPIRED_CODE := "shelly.reconciliation_expired"

  /** Whether the event bus takes the service's events when a poll settles a command. */
  datatype Bus = Bus(reconcilePublished: bool, expirePublished: bool)

  function Expire(s: System, equipment: Id, at: Time, bus: Bus): System
    requires equipment in s.pending
  {
    var id := s.pending[equipment].id;
    var (service, settled) := O.ExpireAcknowledged(s.service, id, EXPIRED_CODE, at, bus.expirePublished);
    if settled.Settled? then
      s.(
        service := service,
        pending := if settled.published then s.pending - {equipment} else s.pending,
        log := s.log + [Lapsed(id, at)])
    else s
  }

  /** Expiry of what is pending, at its deadline or by force, signals a failure. */
  function ExpireIfNeeded(c: Config, s: System, ep: Endpoint, at: Time, force: bool, w: SubmitWorld, bus: Bus): System {
    if ep.equipmentId !in s.pending || (!force && at < s.pending[ep.equipmentId].expiresAt) then s
    else Failure(c, Expire(s, ep.equipmentId, at, bus), ep, true, at, w)
  }

  /** A matching reading is recorded with the safety engine and, if that takes it, settles
      the command. */
  function Reconcile(s: System, equipment: Id, output: bool, at: Time, bus: Bus): System
    requires equipment in s.pending
  {
    var id := s.pending[equipment].id;
    if !O.Reports(s.service, id, at) then s
    else
      var target := s.service.results[id].command.equipmentId;
      var (engine, recorded) := Safety.RecordReported(s.engine, target, output, at);
      var (service, settled) := O.Reconcile(s.service, id, output, at, recorded, bus.reconcilePublished);
      s.(
        engine := engine,
        service := service,
        pending := if settled.Settled? && settled.published then s.pending - {equipment} else s.pending,
        log := s.log + [RecordedBySafety(s.engine, target, output, at, recorded)])
  }

  // ---------- Polling ----------

  datatype ConfigReply = ConfigError | InitialState(text: string)
  datatype StatusReply = StatusError | SwitchStatus(output: bool, faulty: bool)

  function ExpectedInitialState(powerReturn: PowerReturn): string {
    if powerReturn == ReturnRestore then "restore_last" else "off"
  }

  /** The device answered both requests as configured. */
  predicate Answers(ep: Endpoint, config: ConfigReply, status: StatusReply) {
    config == InitialState(ExpectedInitialState(ep.powerReturn)) && status.SwitchStatus?
  }

  /** First section: the device is asked. An endpoint is polled by one worker, so never twice
      at once. */
  function Read(s: System, ep: Endpoint, config: ConfigReply, status: StatusReply, now: Time): System {
    if ep.id in s.flights then s
    else if !Answers(ep, config, status) then
      s.(flights := s.flights[ep.id := Flight(ep, Unreached, now, false, false, None, false)])
    else
      s.(
        flights := s.flights[ep.id := Flight(ep, Fetched, now, status.output, status.faulty, None, false)],
        marks := s.marks[ep.id := Mark(|s.log|, Lookup(s.pending, ep.equipmentId))],
        log := s.log + [Polled(ep.equipmentId, status.output, now)])
  }

  /** Second section: the adapter's tables are read for the report. */
  function Look(s: System, key: Id): System {
    if key !in s.flights || s.flights[key].phase != Fetched then s
    else
      var f := s.flights[key];
      s.(flights := s.flights[key := f.(
           phase := Looked,
           desired := Lookup(s.desired, f.endpoint.equipmentId),
           hasPending := f.endpoint.equipmentId in s.pending)])
  }

  /** The coordinator's reading of a report: faults, divergence, convergence. `stored` says
      that the report's values were all accepted by the canonical store. */
  function Report(c: Config, s: System, f: Flight, stored: bool, w: SubmitWorld): System {
    var desired := if f.desired.Some? then f.desired.value else f.endpoint.safeOn;
    if !stored then s
    else if f.faulty then Failure(c, s, f.endpoint, true, f.now, w)
    else if !f.hasPending && f.output != desired then Failure(c, s, f.endpoint, true, f.now, w)
    else if f.output == desired then Failure(c, s, f.endpoint, false, f.now, w)
    else s
  }

  /** Third section: the report, or the failure of the poll, is handed over. */
  function HandOver(c: Config, s: System, key: Id, stored: bool, w: SubmitWorld): System {
    if key !in s.flights then s
    else
      var f := s.flights[key];
      if f.phase == Unreached then
        Failure(c, s.(flights := s.flights[key := f.(phase := Signalled)]), f.endpoint, true, f.now, w)
      else if f.phase == Looked then
        Report(c, s.(flights := s.flights[key := f.(phase := Reported)]), f, stored, w)
      else s
  }

  /** What a reading does to the command that is pending now: expire, confirm, or wait. */
  function Confirm(c: Config, s: System, f: Flight, w: SubmitWorld, bus: Bus): System {
    var equipment := f.endpoint.equipmentId;
    if equipment !in s.pending then s
    else if s.pending[equipment].expiresAt <= f.now then ExpireIfNeeded(c, s, f.endpoint, f.now, false, w, bus)
    else if f.output == s.pending[equipment].want then Reconcile(s, equipment, f.output, f.now, bus)
    else s
  }

  /** Last section: the command pending by now is settled, and the poll is over. */
  function Settle(c: Config, s: System, key: Id, w: SubmitWorld, bus: Bus): System {
    if key !in s.flights then s
    else
      var f := s.flights[key];
      var over := s.(flights := s.flights - {key});
      if f.phase == Signalled then ExpireIfNeeded(c, over, f.endpoint, f.now, true, w, bus)
      else if f.phase == Reported then Confirm(c, over, f, w, bus)
      else s
  }

  /** What a poll that nothing interrupts meets; its two submit worlds serve the safe
      responses it may request. */
  datatype Poll = Poll(
    config: ConfigReply, status: StatusReply, now: Time, stored: bool, first: SubmitWorld, second: SubmitWorld, bus: Bus)

  /** Such a poll: its sections one after the other. */
  function PollStep(c: Config, s: System, ep: Endpoint, p: Poll): System {
    var looked := Look(Read(s, ep, p.config, p.status, p.now), ep.id);
    Settle(c, HandOver(c, looked, ep.id, p.stored, p.first), ep.id, p.second, p.bus)
  }

  // ---------- Runs ----------

  datatype Op =
    | SubmitOp(command: O.Command, world: SubmitWorld)
    | ReadOp(endpoint: Endpoint, config: ConfigReply, status: StatusReply, now: Time)
    | LookOp(looked: Id)
    | HandOverOp(handed: Id, stored: bool, response: SubmitWorld)
    | SettleOp(settled: Id, response: SubmitWorld, bus: Bus)
    | SafetyOp(op: SafetyRuns.Op)

  function Step(c: Config, s: System, op: Op): System {
    match op
    case SubmitOp(command, w) => Submit(c, s, command, w)
    case ReadOp(ep, config, status, now) => Read(s, ep, config, status, now)
    case LookOp(key) => Look(s, key)
    case HandOverOp(key, stored, w) => HandOver(c, s, key, stored, w)
    case SettleOp(key, w, bus) => Settle(c, s, key, w, bus)
    case SafetyOp(safety) => s.(engine := SafetyRuns.Step(s.engine, safety))
  }

  function Run(c: Config, s: System, ops: seq<Op>): System
    decreases |ops|
  {
    if ops == [] then s else Run(c, Step(c, s, ops[0]), ops[1..])
  }

  /** Nothing submitted or polled yet. */
  function Start(engine: Safety.Engine): System {
    System(engine, O.EMPTY, map[], map[], map[], map[], map[], [])
  }
}
