/** The alarm engine as functions of its state. `AlarmManager` updates that state in place;
    `AlarmRuns` relates whole runs to a reference that looks back over the history. */
module Alarms {
  import opened Domain

  datatype Status = Active | Acknowledged | Cleared

  datatype Severity = Unspecified | Debug | Info | Warning | Critical {
    function Rank(): nat {
      match this
      case Unspecified => 0
      case Debug => 1
      case Info => 2
      case Warning => 3
      case Critical => 4
    }
  }

  datatype Evidence = Evidence(code: string, message: string)

  datatype Rule = Rule(
    id: Id,
    code: string,
    name: string,
    subjectKind: string,
    subjectId: Id,
    severity: Severity,
    debounce: Duration,
    hysteresis: Duration,
    latching: bool)
  {
    predicate Valid() {
      && ValidUuid(id)
      && code != "" && name != "" && subjectKind != ""
      && ValidUuid(subjectId)
      && severity.Rank() != 0
      && debounce >= 0 && hysteresis >= 0
    }
  }

  datatype Observation = Observation(ruleId: Id, active: bool, severity: Severity, observedAt: Time, evidence: Evidence)

  datatype Alarm = Alarm(
    id: Id,
    ruleId: Id,
    severity: Severity,
    status: Status,
    conditionActive: bool,
    evidence: seq<Evidence>,
    firstObserved: Time,
    lastObserved: Time,
    occurrences: nat,
    acknowledgedAt: Option<Time>,
    clearedAt: Option<Time>)

  datatype Transition =
    | NoChange | Debouncing | Raised | Escalated | ClearPending | AutoCleared | IgnoredStale

  datatype RuleState = RuleState(
    rule: Rule,
    pendingActive: Option<Time>,
    pendingClear: Option<Time>,
    lastObservation: Time,
    current: Option<Id>)

  ghost predicate RulesFiled(rules: map<Id, RuleState>) {
    forall r :: r in rules ==> rules[r].rule.Valid() && rules[r].rule.id == r
  }

  datatype Manager = Manager(rules: map<Id, RuleState>, alarms: map<Id, Alarm>, evidenceLimit: nat) {
    /** Rules are valid and filed under their own ID, and a rule's current alarm is its own. */
    ghost predicate Valid() {
      && evidenceLimit >= 1
      && RulesFiled(rules)
      && (forall r :: r in rules && rules[r].current.Some? ==>
            && rules[r].current.value in alarms
            && alarms[rules[r].current.value].ruleId == r)
      && (forall a :: a in alarms ==> alarms[a].id == a && (alarms[a].status == Cleared ==> !alarms[a].conditionActive))
    }

    /** The alarm a rule last raised, whatever its status. */
    function CurrentAlarm(r: Id): Option<Alarm> {
      if r in rules && rules[r].current.Some? && rules[r].current.value in alarms
      then Some(alarms[rules[r].current.value]) else None
    }
  }

  predicate IsOpen(alarm: Option<Alarm>) {
    alarm.Some? && alarm.value.status != Cleared
  }

  /** Adds one piece of evidence, unless it is empty, and keeps the latest `limit`. */
  function AppendEvidence(values: seq<Evidence>, value: Evidence, limit: nat): seq<Evidence> {
    if value.code == "" && value.message == "" then values
    else
      var longer := values + [value];
      if |longer| > limit then longer[|longer| - limit..] else longer
  }

  /** Applies an accepted observation to a rule and the alarm it last raised. The alarm in
      the result, if any, is to be stored. `newId` is the identifier for a new alarm. */
  function ApplyObservation(rs: RuleState, alarm: Option<Alarm>, o: Observation, newId: Id, limit: nat)
    : (RuleState, Option<Alarm>, Transition)
  {
    if o.active then ApplyActive(rs.(pendingClear := None), alarm, o, newId, limit)
    else ApplyHealthy(rs.(pendingActive := None), alarm, o, limit)
  }

  function ApplyActive(rs: RuleState, alarm: Option<Alarm>, o: Observation, newId: Id, limit: nat)
    : (RuleState, Option<Alarm>, Transition)
  {
    if !IsOpen(alarm) then
      var since := if rs.pendingActive.Some? then rs.pendingActive.value else o.observedAt;
      if o.observedAt - since < rs.rule.debounce then
        (rs.(pendingActive := Some(since)), None, Debouncing)
      else
        var severity := if o.severity.Rank() > rs.rule.severity.Rank() then o.severity else rs.rule.severity;
        var raised := Alarm(
          newId, rs.rule.id, severity, Active, true, AppendEvidence([], o.evidence, limit),
          since, o.observedAt, 1, None, None);
        (rs.(current := Some(newId), pendingActive := None), Some(raised), Raised)
    else
      var seen := alarm.value.(
        conditionActive := true,
        lastObserved := o.observedAt,
        occurrences := alarm.value.occurrences + 1,
        evidence := AppendEvidence(alarm.value.evidence, o.evidence, limit));
      if o.severity.Rank() > seen.severity.Rank() then (rs, Some(seen.(severity := o.severity)), Escalated)
      else (rs, Some(seen), NoChange)
  }

  function ApplyHealthy(rs: RuleState, alarm: Option<Alarm>, o: Observation, limit: nat)
    : (RuleState, Option<Alarm>, Transition)
  {
    if !IsOpen(alarm) then (rs, alarm, NoChange)
    else
      var seen := alarm.value.(
        conditionActive := false,
        lastObserved := o.observedAt,
        evidence := AppendEvidence(alarm.value.evidence, o.evidence, limit));
      var since := if rs.pendingClear.Some? then rs.pendingClear.value else o.observedAt;
      if o.observedAt - since < rs.rule.hysteresis || rs.rule.latching then
        (rs.(pendingClear := Some(since)), Some(seen), ClearPending)
      else
        (rs.(pendingClear := None), Some(seen.(status := Cleared, clearedAt := Some(o.observedAt))), AutoCleared)
  }

  /** What `Observe` returns besides an event: the transition, or that the rule is unknown. */
  datatype Observed = Observed(transition: Transition) | RuleNotFound

  /** An observation without a time takes the clock's. */
  function ObservationTime(o: Observation, clock: Time): Time {
    if o.observedAt == 0 then clock else o.observedAt
  }

  predicate IsStale(rs: RuleState, at: Time) {
    rs.lastObservation != 0 && at <= rs.lastObservation
  }

  function Observe(m: Manager, o: Observation, clock: Time, newId: Id): (Manager, Observed) {
    var r := o.ruleId;
    var timed := o.(observedAt := ObservationTime(o, clock));
    if r !in m.rules then (m, RuleNotFound)
    else if IsStale(m.rules[r], timed.observedAt) then (m, Observed(IgnoredStale))
    else
      var rs := m.rules[r].(lastObservation := timed.observedAt);
      var (rs', alarm, transition) := ApplyObservation(rs, m.CurrentAlarm(r), timed, newId, m.evidenceLimit);
      var alarms := if alarm.Some? then m.alarms[alarm.value.id := alarm.value] else m.alarms;
      (m.(rules := m.rules[r := rs'], alarms := alarms), Observed(transition))
  }

  datatype Outcome = Done | NotFound | InvalidTransition | ConditionActive | Duplicate | Rejected

  function Acknowledge(m: Manager, id: Id, clock: Time): (Manager, Outcome) {
    if id !in m.alarms then (m, NotFound)
    else if m.alarms[id].status != Active then (m, InvalidTransition)
    else
      (m.(alarms := m.alarms[id := m.alarms[id].(status := Acknowledged, acknowledgedAt := Some(clock))]), Done)
  }

  function Clear(m: Manager, id: Id, clock: Time): (Manager, Outcome) {
    if id !in m.alarms then (m, NotFound)
    else if m.alarms[id].conditionActive then (m, ConditionActive)
    else if m.alarms[id].status == Cleared then (m, InvalidTransition)
    else (m.(alarms := m.alarms[id := m.alarms[id].(status := Cleared, clearedAt := Some(clock))]), Done)
  }

  function RegisterRule(m: Manager, rule: Rule): (Manager, Outcome) {
    if !rule.Valid() then (m, Rejected)
    else if rule.id in m.rules then (m, Duplicate)
    else (m.(rules := m.rules[rule.id := RuleState(rule, None, None, 0, None)]), Done)
  }
}
