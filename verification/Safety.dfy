/** The safety policy as functions of the engine's state. `SafetyEngine` holds the class that
    updates that state in place; `SafetyRuns`, `Accounting` and `Watchdogs` hold what is
    proved about whole runs. */
module Safety {
  import opened Domain
  import State
  import Profile

  datatype Mode = Normal | Maintenance | Manual | EmergencyStop | UnknownMode

  datatype Reason =
    | Allowed | UnknownEquipment | EmergencyStopped | OverrideRequired | OverrideExpired
    | InputMissing | InputInvalid | InputStale | InputMismatch
    | MaximumOn | MaximumDailyOn | MinimumOff

  datatype Intent = Intent(equipmentId: Id, on: bool, issuedAt: Time)

  datatype Decision = Decision(allowed: bool, reason: Reason, hardLimit: bool, overrideId: Option<Id>)

  /** What a call of `Evaluate` returns: a decision, or the state reader's own error. */
  datatype Evaluation = Decided(decision: Decision) | ReaderFailed

  datatype Override = Override(
    id: Id, equipmentId: Id, requester: string, reason: string, createdAt: Time, expiresAt: Time)

  datatype Action = Action(equipmentId: Id, on: bool, reason: Reason, observedAt: Time)

  datatype Runtime = Runtime(
    on: bool,
    onSince: Time,
    offSince: Time,
    dailyOn: Duration,
    dailyDate: Option<int>,
    lastAccounted: Time,
    watchdogReason: Option<Reason>)

  /** The runtime of equipment nothing has been recorded about. */
  const NO_RUNTIME := Runtime(false, 0, 0, 0, None, 0, None)

  /** A canonical-state read: an entry, or an error other than "not found". Keys absent from
      a `Reader` are not found. */
  datatype Lookup = Found(entry: State.Entry) | Failed
  type Reader = map<State.Key, Lookup>

  ghost predicate Admitted(profiles: map<Id, Profile.Profile>) {
    forall id :: id in profiles ==> Profile.Valid(profiles[id]) && profiles[id].equipmentId == id
  }

  datatype Engine = Engine(
    mode: Mode,
    profiles: map<Id, Profile.Profile>,
    overrides: map<Id, Override>,
    runtime: map<Id, Runtime>)
  {
    /** Profiles are admitted and filed under their own equipment; overrides and runtime
        exist only for equipment with a profile. */
    ghost predicate Valid() {
      && mode != UnknownMode
      && Admitted(profiles)
      && overrides.Keys <= profiles.Keys
      && runtime.Keys <= profiles.Keys
    }

    function RuntimeOf(id: Id): Runtime {
      if id in runtime then runtime[id] else NO_RUNTIME
    }
  }

  // ---------- Runtime accounting ----------

  /** Brings one equipment's daily on-time up to `at`. The first call of a UTC day starts
      that day's account at `at`. */
  function Account(r: Runtime, at: Time): Runtime {
    var day := Some(UtcDay(at));
    var dated :=
      if r.dailyDate == day then r
      else r.(dailyDate := day, dailyOn := 0, lastAccounted := if r.on then at else r.lastAccounted);
    if dated.on && dated.lastAccounted != 0 && at > dated.lastAccounted then
      dated.(dailyOn := dated.dailyOn + (at - dated.lastAccounted), lastAccounted := at)
    else
      dated
  }

  /** Accounts up to `at`, then records the reported state. */
  function Record(r: Runtime, on: bool, at: Time): Runtime {
    var accounted := Account(r, at);
    if accounted.on == on then accounted
    else if on then accounted.(on := true, onSince := at, lastAccounted := at, watchdogReason := None)
    else accounted.(on := false, offSince := at, onSince := 0, lastAccounted := 0, watchdogReason := None)
  }

  function RecordReported(e: Engine, id: Id, on: bool, at: Time): (Engine, bool) {
    if at == 0 || id !in e.profiles then (e, false)
    else (e.(runtime := e.runtime[id := Record(e.RuntimeOf(id), on, at)]), true)
  }

  // ---------- Evaluation ----------

  const ALLOW := Decision(true, Allowed, false, None)

  function HardDenial(reason: Reason): Decision {
    Decision(false, reason, true, None)
  }

  /** The verdict on one required input, or `None` when it is acceptable. */
  function InputFault(requirement: Profile.Requirement, reader: Reader): Option<Evaluation> {
    if requirement.key !in reader then Some(Decided(HardDenial(InputMissing)))
    else match reader[requirement.key]
      case Failed => Some(ReaderFailed)
      case Found(entry) =>
        if entry.quality == Stale then Some(Decided(HardDenial(InputStale)))
        else if entry.quality != Good then Some(Decided(HardDenial(InputInvalid)))
        else if requirement.requireBoolean.Some? && entry.value.boolean != requirement.requireBoolean then
          Some(Decided(HardDenial(InputMismatch)))
        else None
  }

  /** Required inputs are checked in order; the first fault decides. */
  function ValidateInputs(requirements: seq<Profile.Requirement>, reader: Reader): Evaluation {
    if requirements == [] then Decided(ALLOW)
    else match InputFault(requirements[0], reader)
      case Some(fault) => fault
      case None => ValidateInputs(requirements[1..], reader)
  }

  /** The limits that no mode and no override can lift. */
  function LimitFault(mode: Mode, p: Profile.Profile, r: Runtime, now: Time): Option<Reason> {
    if mode == EmergencyStop then Some(EmergencyStopped)
    else if r.on && p.limits.maximumOn > 0 && now - r.onSince >= p.limits.maximumOn then Some(MaximumOn)
    else if p.limits.maximumDailyOn > 0 && r.dailyOn >= p.limits.maximumDailyOn then Some(MaximumDailyOn)
    else if r.offSince != 0 && p.limits.minimumOff > 0 && now - r.offSince < p.limits.minimumOff then Some(MinimumOff)
    else None
  }

  /** The judgement on an intent, given the runtime accounted up to `now` and the override
      that is still in force. */
  function Judge(mode: Mode, p: Profile.Profile, r: Runtime, override: Option<Override>, on: bool, now: Time, reader: Reader)
    : Evaluation
  {
    var fault := LimitFault(mode, p, r, now);
    var inputs := if p.hazardous then ValidateInputs(p.requiredInputs, reader) else Decided(ALLOW);
    if !on then Decided(ALLOW)
    else if fault.Some? then Decided(HardDenial(fault.value))
    else if inputs.ReaderFailed? || !inputs.decision.allowed then inputs
    else if (mode == Maintenance || mode == Manual) && override.None? then
      Decided(Decision(false, OverrideRequired, false, None))
    else
      Decided(ALLOW.(overrideId := if override.Some? then Some(override.value.id) else None))
  }

  /** An intent without an issue time is judged at the engine's clock. */
  function IssueTime(intent: Intent, clock: Time): Time {
    if intent.issuedAt == 0 then clock else intent.issuedAt
  }

  function OverrideAt(e: Engine, id: Id, now: Time): Option<Override> {
    if id in e.overrides && now < e.overrides[id].expiresAt then Some(e.overrides[id]) else None
  }

  function OverrideDue(e: Engine, id: Id, now: Time): bool {
    id in e.overrides && e.overrides[id].expiresAt <= now
  }

  function Evaluate(e: Engine, intent: Intent, clock: Time, reader: Reader): (Engine, Evaluation) {
    var id := intent.equipmentId;
    var now := IssueTime(intent, clock);
    if id !in e.profiles then (e, Decided(Decision(false, UnknownEquipment, false, None)))
    else
      var r := Account(e.RuntimeOf(id), now);
      var e' := e.(
        runtime := e.runtime[id := r],
        overrides := if OverrideDue(e, id, now) then e.overrides - {id} else e.overrides);
      (e', Judge(e.mode, e.profiles[id], r, OverrideAt(e, id, now), intent.on, now, reader))
  }

  // ---------- Watchdogs ----------

  /** Why the watchdog should act on equipment whose runtime is accounted up to `now`.
      `due` says that an override on it has just expired. */
  function WatchdogCause(p: Profile.Profile, due: bool, r: Runtime, now: Time): Option<Reason> {
    if !r.on || r.watchdogReason.Some? then None
    else if due then Some(OverrideExpired)
    else if p.limits.maximumOn > 0 && now - r.onSince >= p.limits.maximumOn then Some(MaximumOn)
    else if p.limits.maximumDailyOn > 0 && r.dailyOn >= p.limits.maximumDailyOn then Some(MaximumDailyOn)
    else None
  }

  /** One equipment's runtime after a check, and the action it causes. */
  function CheckOne(p: Profile.Profile, due: bool, r: Runtime, now: Time): (Runtime, Option<Action>) {
    var accounted := Account(r, now);
    match WatchdogCause(p, due, accounted, now)
    case None => (accounted, None)
    case Some(reason) =>
      (accounted.(watchdogReason := Some(reason)), Some(Action(p.equipmentId, p.failSafeOn, reason, now)))
  }

  function CheckFor(e: Engine, id: Id, now: Time): (Runtime, Option<Action>)
    requires id in e.profiles
  {
    CheckOne(e.profiles[id], OverrideDue(e, id, now), e.RuntimeOf(id), now)
  }

  /** A check accounts all equipment, drops expired overrides and marks what it acts on. */
  function CheckWatchdogs(e: Engine, now: Time): Engine {
    e.(
      overrides := map id | id in e.overrides && !OverrideDue(e, id, now) :: e.overrides[id],
      runtime := map id | id in e.profiles :: CheckFor(e, id, now).0)
  }

  function ActionFor(e: Engine, id: Id, now: Time): Option<Action> {
    if id in e.profiles then CheckFor(e, id, now).1 else None
  }

  // ---------- Mode and overrides ----------

  function SetMode(e: Engine, mode: Mode): Engine {
    if mode == UnknownMode then e else e.(mode := mode)
  }

  predicate Grantable(e: Engine, o: Override, clock: Time) {
    && ValidUuid(o.id)
    && o.reason != "" && o.requester != ""
    && (if o.createdAt == 0 then clock else o.createdAt) < o.expiresAt
    && o.equipmentId in e.profiles
  }

  function GrantOverride(e: Engine, o: Override, clock: Time): Engine {
    if Grantable(e, o, clock) then
      var stamped := o.(createdAt := if o.createdAt == 0 then clock else o.createdAt);
      e.(overrides := e.overrides[o.equipmentId := stamped])
    else e
  }

  function RevokeOverride(e: Engine, id: Id): Engine {
    e.(overrides := e.overrides - {id})
  }
}
