/** The output command service as functions of its state: the only path from a request to
    the hardware. `OutputService` holds the class; `OutputRuns` holds what is proved about
    whole runs. Each exported call is one atomic step. */
module Output {
  import opened Domain
  import Safety

  datatype Status = Validated | Rejected | Dispatched | Acknowledged | Succeeded | Failed | Expired {
    predicate Terminal() {
      this == Rejected || this == Succeeded || this == Failed || this == Expired
    }

    /** How far along its life a command is. */
    function Rank(): nat {
      match this
      case Validated => 0
      case Dispatched => 1
      case Acknowledged => 2
      case _ => 3
    }
  }

  datatype Reason =
    | WasValidated | WasDispatched | WasExpired | RevisionConflict | DispatchFailed | AdapterRejected
    | WasAcknowledged | Reconciled | ReportedMismatch | ByPolicy(reason: Safety.Reason) | ByAdapter(code: string)

  datatype Command = Command(
    id: Id,
    idempotencyKey: string,
    correlationId: Id,
    equipmentId: Id,
    requester: string,
    issuedAt: Time,
    expiresAt: Time,
    expectedRevision: Option<nat>,
    on: bool)
  {
    predicate Valid() {
      && ValidUuid(id) && ValidUuid(correlationId) && ValidUuid(equipmentId)
      && 0 < |idempotencyKey| <= 128
      && requester != ""
      && issuedAt != 0 && expiresAt != 0 && issuedAt < expiresAt
    }
  }

  datatype Result = Result(
    command: Command, status: Status, reason: Reason, acknowledgedAt: Option<Time>, reconciledAt: Option<Time>)

  datatype Service = Service(results: map<Id, Result>, idempotency: map<string, Id>) {
    /** Keys and recorded commands correspond one to one. */
    ghost predicate Valid() {
      && (forall k :: k in idempotency ==>
            idempotency[k] in results && results[idempotency[k]].command.idempotencyKey == k)
      && (forall id :: id in results ==>
            && results[id].command.id == id
            && results[id].command.idempotencyKey in idempotency
            && idempotency[results[id].command.idempotencyKey] == id)
    }
  }

  const EMPTY := Service(map[], map[])

  /** What the executor makes of a dispatch. */
  datatype DispatchOutcome = DispatchError | Answered(accepted: bool, acknowledgedAt: Time)

  /** What one call of `Submit` meets outside the service: generated identifiers, the clock,
      the store's revision (`None` when it cannot be read), the policy's evaluation, the
      executor's answer, and whether each event publication succeeds. */
  datatype World = World(
    commandId: Id,
    correlationId: Id,
    now: Time,
    revision: Option<nat>,
    evaluation: Safety.Evaluation,
    dispatch: DispatchOutcome,
    acknowledgementClock: Time,
    recordPublished: bool,
    dispatchPublished: bool,
    outcomePublished: bool)

  /** What `Submit` hands back: an error with no record, the stored result of an earlier
      submission, or the new record and whether its event was published. */
  datatype Returned =
    | Malformed | Conflict | RevisionUnreadable | PolicyFailed
    | Existing(result: Result)
    | Given(result: Result, published: bool)

  /** A call's effect. `sent` is the command passed to the executor, if it was. */
  datatype Submission = Submission(service: Service, returned: Returned, sent: Option<Command>)

  function Prepare(command: Command, w: World): Command {
    command.(
      id := if command.id == "" then w.commandId else command.id,
      correlationId := if command.correlationId == "" then w.correlationId else command.correlationId)
  }

  predicate Equivalent(a: Command, b: Command) {
    && a.idempotencyKey == b.idempotencyKey && a.equipmentId == b.equipmentId
    && a.requester == b.requester && a.on == b.on
  }

  function Record(s: Service, command: Command, status: Status, reason: Reason): Service {
    Service(
      s.results[command.id := Result(command, status, reason, None, None)],
      s.idempotency[command.idempotencyKey := command.id])
  }

  function Transition(s: Service, id: Id, status: Status, reason: Reason, at: Option<Time>): Service
    requires id in s.results
  {
    var r := s.results[id].(status := status, reason := reason);
    var stamped :=
      if status == Acknowledged then r.(acknowledgedAt := at)
      else if status == Succeeded then r.(reconciledAt := at)
      else r;
    s.(results := s.results[id := stamped])
  }

  /** The checks between idempotency and dispatch: expiry, then revision, then policy. The
      status and reason to record, or the error that ends the call without a record. */
  datatype Gate = Pass | Refuse(status: Status, reason: Reason) | Abort(error: Returned)

  function Gates(command: Command, w: World): Gate {
    if w.now >= command.expiresAt then Refuse(Expired, WasExpired)
    else if command.expectedRevision.Some? && w.revision.None? then Abort(RevisionUnreadable)
    else if command.expectedRevision.Some? && w.revision != command.expectedRevision then Refuse(Rejected, RevisionConflict)
    else if w.evaluation.ReaderFailed? then Abort(PolicyFailed)
    else if !w.evaluation.decision.allowed then Refuse(Rejected, ByPolicy(w.evaluation.decision.reason))
    else Pass
  }

  /** The policy is asked: the command is well-formed, new, in time and at its revision. */
  predicate Consults(s: Service, given: Command, w: World) {
    var command := Prepare(given, w);
    && command.Valid() && command.idempotencyKey !in s.idempotency
    && w.now < command.expiresAt && (command.expectedRevision.Some? ==> w.revision == command.expectedRevision)
  }

  function Submit(s: Service, given: Command, w: World): Submission {
    var command := Prepare(given, w);
    if !command.Valid() then Submission(s, Malformed, None)
    else if command.idempotencyKey in s.idempotency then
      var id := s.idempotency[command.idempotencyKey];
      if id in s.results && Equivalent(s.results[id].command, command)
      then Submission(s, Existing(s.results[id]), None)
      else Submission(s, Conflict, None)
    else match Gates(command, w)
      case Abort(error) => Submission(s, error, None)
      case Refuse(status, reason) =>
        var s' := Record(s, command, status, reason);
        Submission(s', Given(s'.results[command.id], w.recordPublished), None)
      case Pass => Dispatch(Record(s, command, Validated, WasValidated), command, w)
  }

  /** From `Validated` on: a failed publication ends the call where it is. */
  function Dispatch(s: Service, command: Command, w: World): Submission
    requires command.id in s.results
  {
    if !w.recordPublished then Submission(s, Given(s.results[command.id], false), None)
    else
      var s1 := Transition(s, command.id, Dispatched, WasDispatched, None);
      if !w.dispatchPublished then Submission(s1, Given(s1.results[command.id], false), None)
      else
        var s2 := match w.dispatch
          case DispatchError => Transition(s1, command.id, Failed, DispatchFailed, None)
          case Answered(accepted, at) =>
            if !accepted then Transition(s1, command.id, Failed, AdapterRejected, None)
            else Transition(s1, command.id, Acknowledged, WasAcknowledged, Some(if at == 0 then w.acknowledgementClock else at));
        Submission(s2, Given(s2.results[command.id], w.outcomePublished), Some(command))
  }

  /** What `Reconcile` and `ExpireAcknowledged` hand back. */
  datatype Settled = BadArguments | NotFound | InvalidTransition | RecordFailed | TooEarly | Settled(result: Result, published: bool)

  /** The report is passed to the safety engine: its command is known and acknowledged. */
  predicate Reports(s: Service, id: Id, at: Time) {
    at != 0 && id in s.results && s.results[id].status == Acknowledged
  }

  /** Confirms reported physical state. `recorded` says whether the safety engine took the report. */
  function Reconcile(s: Service, id: Id, on: bool, at: Time, recorded: bool, published: bool): (Service, Settled) {
    if at == 0 then (s, BadArguments)
    else if id !in s.results then (s, NotFound)
    else if s.results[id].status != Acknowledged then (s, InvalidTransition)
    else if !recorded then (s, RecordFailed)
    else
      var s' := if on != s.results[id].command.on then Transition(s, id, Failed, ReportedMismatch, None)
                else Transition(s, id, Succeeded, Reconciled, Some(at));
      (s', Settled(s'.results[id], published))
  }

  function ExpireAcknowledged(s: Service, id: Id, code: string, at: Time, published: bool): (Service, Settled) {
    if code == "" || at == 0 then (s, BadArguments)
    else if id !in s.results then (s, NotFound)
    else if s.results[id].status != Acknowledged then (s, InvalidTransition)
    else if at < s.results[id].command.expiresAt then (s, TooEarly)
    else
      var s' := Transition(s, id, Expired, ByAdapter(code), None);
      (s', Settled(s'.results[id], published))
  }

  // ---------- Watchdog commands ----------

  /** The command that carries out a watchdog action. */
  function WatchdogCommand(action: Safety.Action, ttl: Duration, id: Id, correlationId: Id): Command {
    Command(
      id, "watchdog/" + id, correlationId, action.equipmentId, "safety-watchdog",
      action.observedAt, action.observedAt + ttl, None, action.on)
  }

  predicate IsError(returned: Returned) {
    match returned
    case Existing(_) => false
    case Given(_, published) => !published
    case _ => true
  }

  /** Submits a command for each action, in order, up to and including the first error. */
  function SubmitActions(s: Service, actions: seq<Safety.Action>, ttl: Duration, worlds: seq<World>): (Service, seq<Returned>)
    requires |worlds| == |actions|
    decreases |actions|
  {
    if actions == [] then (s, [])
    else
      var command := WatchdogCommand(actions[0], ttl, worlds[0].commandId, worlds[0].correlationId);
      var submission := Submit(s, command, worlds[0]);
      if IsError(submission.returned) then (submission.service, [submission.returned])
      else
        var (s', rest) := SubmitActions(submission.service, actions[1..], ttl, worlds[1..]);
        (s', [submission.returned] + rest)
  }
}
