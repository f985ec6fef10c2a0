/** Whole runs of the alarm engine against a reference that keeps nothing but the history
    of accepted observations and whether an alarm is open. */
module AlarmRuns {
  import opened Domain
  import opened Alarms

  datatype Op =
    | ObserveOp(observation: Observation, clock: Time, newId: Id)
    | AcknowledgeOp(alarm: Id, clock: Time)
    | ClearOp(cleared: Id, clock: Time)
    | RegisterOp(rule: Rule)

  function Step(m: Manager, op: Op): Manager {
    match op
    case ObserveOp(o, clock, newId) => Observe(m, o, clock, newId).0
    case AcknowledgeOp(id, clock) => Acknowledge(m, id, clock).0
    case ClearOp(id, clock) => Clear(m, id, clock).0
    case RegisterOp(rule) => RegisterRule(m, rule).0
  }

  function Run(m: Manager, ops: seq<Op>): Manager
    decreases |ops|
  {
    if ops == [] then m else Run(Step(m, ops[0]), ops[1..])
  }

  /** Clocks read set instants and the generator never repeats an alarm identifier. */
  predicate Sound(m: Manager, op: Op) {
    op.ObserveOp? ==> op.clock != 0 && op.newId !in m.alarms
  }

  ghost predicate SoundRun(m: Manager, ops: seq<Op>)
    decreases |ops|
  {
    ops == [] || (Sound(m, ops[0]) && SoundRun(Step(m, ops[0]), ops[1..]))
  }

  /** An observation keeps the rule, and stores either an update of the rule's current
      alarm or a new alarm that becomes current. */
  lemma {:induction false} ApplyShape(rs: RuleState, alarm: Option<Alarm>, o: Observation, newId: Id, limit: nat)
    requires alarm.Some? && alarm.value.status == Cleared ==> !alarm.value.conditionActive
    ensures var (rs', stored, transition) := ApplyObservation(rs, alarm, o, newId, limit);
            && rs'.rule == rs.rule && rs'.lastObservation == rs.lastObservation
            && (stored.Some? && stored.value.status == Cleared ==> !stored.value.conditionActive)
            && (if transition == Raised
                then stored.Some? && stored.value.id == newId && stored.value.ruleId == rs.rule.id && rs'.current == Some(newId)
                else && rs'.current == rs.current
                     && (stored.Some? ==> alarm.Some? && stored.value.id == alarm.value.id && stored.value.ruleId == alarm.value.ruleId))
  {
  }

  lemma {:induction false} ObserveKeepsValid(m: Manager, o: Observation, clock: Time, newId: Id)
    requires m.Valid() && newId !in m.alarms
    ensures Observe(m, o, clock, newId).0.Valid()
  {
    if o.ruleId in m.rules {
      var at := ObservationTime(o, clock);
      var rs := m.rules[o.ruleId].(lastObservation := at);
      ApplyShape(rs, m.CurrentAlarm(o.ruleId), o.(observedAt := at), newId, m.evidenceLimit);
      var (rs', stored, _) :=
        ApplyObservation(rs, m.CurrentAlarm(o.ruleId), o.(observedAt := at), newId, m.evidenceLimit);
      FilingKeepsValid(m, o.ruleId, rs', stored);
    }
  }

  /** Filing an update of the current alarm, or a new alarm as current. */
  lemma {:induction false} FilingKeepsValid(m: Manager, r: Id, rs': RuleState, stored: Option<Alarm>)
    requires m.Valid() && r in m.rules && rs'.rule == m.rules[r].rule
    requires stored.Some? && stored.value.status == Cleared ==> !stored.value.conditionActive
    requires stored.Some? ==> stored.value.ruleId == r && rs'.current == Some(stored.value.id)
    requires rs'.current == m.rules[r].current || (stored.Some? && stored.value.id !in m.alarms)
    ensures m.(rules := m.rules[r := rs'],
               alarms := if stored.Some? then m.alarms[stored.value.id := stored.value] else m.alarms).Valid()
  {
  }

  lemma {:induction false} StepKeepsValid(m: Manager, op: Op)
    requires m.Valid() && Sound(m, op)
    ensures Step(m, op).Valid()
  {
    match op
    case ObserveOp(o, clock, newId) => ObserveKeepsValid(m, o, clock, newId);
    case AcknowledgeOp(id, clock) => AcknowledgeKeepsValid(m, id, clock);
    case ClearOp(id, clock) => ClearKeepsValid(m, id, clock);
    case RegisterOp(rule) => RegisterKeepsValid(m, rule);
  }

  lemma {:induction false} AcknowledgeKeepsValid(m: Manager, id: Id, clock: Time)
    requires m.Valid()
    ensures Acknowledge(m, id, clock).0.Valid()
  {
  }

  lemma {:induction false} ClearKeepsValid(m: Manager, id: Id, clock: Time)
    requires m.Valid()
    ensures Clear(m, id, clock).0.Valid()
  {
  }

  lemma {:induction false} RegisterKeepsValid(m: Manager, rule: Rule)
    requires m.Valid()
    ensures RegisterRule(m, rule).0.Valid()
  {
  }

  // ---------- The reference ----------

  datatype Seen = Seen(at: Time, active: bool, severity: Severity, evidence: Evidence)

  /** An open alarm: its identifier and which observation raised it. */
  datatype Episode = Episode(id: Id, raisedBy: nat)

  datatype History = History(rule: Rule, seen: seq<Seen>, open: Option<Episode>)

  /** Start of the trailing block: the oldest of the latest run of observations that agree. */
  function BlockStart(seen: seq<Seen>): Time
    requires seen != []
  {
    var n := |seen|;
    if n == 1 || seen[n - 2].active != seen[n - 1].active then seen[n - 1].at else BlockStart(seen[..n - 1])
  }

  /** How long the trailing block has lasted at the latest observation. */
  function BlockSpan(seen: seq<Seen>): Duration
    requires seen != []
  {
    seen[|seen| - 1].at - BlockStart(seen)
  }

  /** The worst severity among a base and the active observations. */
  function Worst(base: Severity, seen: seq<Seen>): Severity {
    if seen == [] then base
    else
      var last := seen[|seen| - 1];
      var before := Worst(base, seen[..|seen| - 1]);
      if last.active && last.severity.Rank() > before.Rank() then last.severity else before
  }

  /** All evidence given, empty pieces left out. */
  function AllEvidence(seen: seq<Seen>): seq<Evidence> {
    if seen == [] then []
    else
      var last := seen[|seen| - 1].evidence;
      AllEvidence(seen[..|seen| - 1]) + (if last.code == "" && last.message == "" then [] else [last])
  }

  function Latest<T>(values: seq<T>, limit: nat): seq<T> {
    if |values| > limit then values[|values| - limit..] else values
  }

  function ActiveCount(seen: seq<Seen>): nat {
    if seen == [] then 0 else ActiveCount(seen[..|seen| - 1]) + (if seen[|seen| - 1].active then 1 else 0)
  }

  /** The decision on one observation, by looking back over the history. */
  function Decide(h: History, o: Seen): Transition {
    var seen := h.seen + [o];
    if h.seen != [] && o.at <= h.seen[|h.seen| - 1].at then IgnoredStale
    else if o.active && h.open.None? then
      if BlockSpan(seen) >= h.rule.debounce then Raised else Debouncing
    else if o.active then
      if o.severity.Rank() > Worst(h.rule.severity, h.seen[Min(h.open.value.raisedBy, |h.seen|)..]).Rank() then Escalated
      else NoChange
    else if h.open.None? then NoChange
    else if !h.rule.latching && BlockSpan(seen) >= h.rule.hysteresis then AutoCleared
    else ClearPending
  }

  function Min(a: nat, b: nat): nat {
    if a <= b then a else b
  }

  function See(h: History, o: Seen, newId: Id): History {
    match Decide(h, o)
    case IgnoredStale => h
    case Raised => h.(seen := h.seen + [o], open := Some(Episode(newId, |h.seen|)))
    case AutoCleared => h.(seen := h.seen + [o], open := None)
    case _ => h.(seen := h.seen + [o])
  }

  /** An explicit clear closes the open alarm, provided its condition is healthy. */
  predicate ClearsOpen(h: History, id: Id) {
    h.open.Some? && h.open.value.id == id && h.seen != [] && !h.seen[|h.seen| - 1].active
  }

  function SeenAs(o: Observation, clock: Time): Seen {
    Seen(ObservationTime(o, clock), o.active, o.severity, o.evidence)
  }

  function Follow(h: History, op: Op): History {
    match op
    case ObserveOp(o, clock, newId) => if o.ruleId == h.rule.id then See(h, SeenAs(o, clock), newId) else h
    case ClearOp(id, _) => if ClearsOpen(h, id) then h.(open := None) else h
    case _ => h
  }

  // ---------- The incremental state tracks the reference ----------

  ghost predicate Increasing(seen: seq<Seen>) {
    && (forall i :: 0 <= i < |seen| ==> seen[i].at != 0)
    && (forall i, j :: 0 <= i < j < |seen| ==> seen[i].at < seen[j].at)
  }

  /** What the pending times and the open alarm stand for. Nothing is said about
      `pendingClear` while no alarm is open: an explicit clear leaves it behind. */
  ghost predicate Tracks(rs: RuleState, alarm: Option<Alarm>, h: History, limit: nat) {
    && rs.rule == h.rule
    && rs.lastObservation == (if h.seen == [] then 0 else h.seen[|h.seen| - 1].at)
    && Increasing(h.seen)
    && (h.open.None? ==>
          && !IsOpen(alarm)
          && rs.pendingActive == if h.seen != [] && h.seen[|h.seen| - 1].active then Some(BlockStart(h.seen)) else None)
    && (h.open.Some? ==> TracksOpen(rs, alarm, h, limit))
  }

  ghost predicate TracksOpen(rs: RuleState, alarm: Option<Alarm>, h: History, limit: nat)
    requires h.open.Some?
  {
    && h.open.value.raisedBy < |h.seen|
    && IsOpen(alarm)
    && rs.current == Some(h.open.value.id)
    && rs.pendingActive == None
    && rs.pendingClear == (if h.seen[|h.seen| - 1].active then None else Some(BlockStart(h.seen)))
    && Describes(alarm.value, h.rule, h.seen, h.open.value, limit)
  }

  /** An open alarm's fields, each as a function of the history. */
  ghost predicate Describes(a: Alarm, rule: Rule, seen: seq<Seen>, episode: Episode, limit: nat)
    requires episode.raisedBy < |seen|
  {
    var since := seen[episode.raisedBy..];
    && a.id == episode.id && a.ruleId == rule.id
    && a.conditionActive == seen[|seen| - 1].active
    && a.severity == Worst(rule.severity, since)
    && a.evidence == Latest(AllEvidence(since), limit)
    && a.firstObserved == BlockStart(seen[..episode.raisedBy + 1])
    && a.lastObserved == seen[|seen| - 1].at
    && a.occurrences == ActiveCount(since)
  }

  lemma {:induction false} BlockStartSnoc(seen: seq<Seen>, o: Seen)
    ensures BlockStart(seen + [o]) == if seen != [] && seen[|seen| - 1].active == o.active then BlockStart(seen) else o.at
  {
    assert (seen + [o])[..|seen|] == seen;
  }

  lemma {:induction false} LatestSnoc<T>(values: seq<T>, value: T, limit: nat)
    requires limit >= 1
    ensures Latest(Latest(values, limit) + [value], limit) == Latest(values + [value], limit)
  {
  }

  /** One more observation of an open alarm keeps its description up to date. */
  lemma {:induction false} DescribesSnoc(a: Alarm, rule: Rule, seen: seq<Seen>, episode: Episode, limit: nat, o: Seen, a': Alarm)
    requires limit >= 1 && episode.raisedBy < |seen| && Describes(a, rule, seen, episode, limit)
    requires a'.id == a.id && a'.ruleId == a.ruleId && a'.firstObserved == a.firstObserved
    requires a'.conditionActive == o.active && a'.lastObserved == o.at
    requires a'.occurrences == a.occurrences + (if o.active then 1 else 0)
    requires a'.evidence == AppendEvidence(a.evidence, o.evidence, limit)
    requires a'.severity == if o.active && o.severity.Rank() > a.severity.Rank() then o.severity else a.severity
    ensures Describes(a', rule, seen + [o], episode, limit)
  {
    var since := seen[episode.raisedBy..];
    assert (seen + [o])[episode.raisedBy..] == since + [o];
    assert (seen + [o])[..episode.raisedBy + 1] == seen[..episode.raisedBy + 1];
    EvidenceSnoc(since, o, limit);
    CountsSnoc(rule.severity, since, o);
  }

  lemma {:induction false} EvidenceSnoc(since: seq<Seen>, o: Seen, limit: nat)
    requires limit >= 1
    ensures Latest(AllEvidence(since + [o]), limit) == AppendEvidence(Latest(AllEvidence(since), limit), o.evidence, limit)
  {
    assert (since + [o])[..|since|] == since;
    LatestSnoc(AllEvidence(since), o.evidence, limit);
  }

  lemma {:induction false} CountsSnoc(base: Severity, since: seq<Seen>, o: Seen)
    ensures ActiveCount(since + [o]) == ActiveCount(since) + (if o.active then 1 else 0)
    ensures Worst(base, since + [o])
         == if o.active && o.severity.Rank() > Worst(base, since).Rank() then o.severity else Worst(base, since)
  {
    assert (since + [o])[..|since|] == since;
  }

  lemma {:induction false} DescribesRaised(a: Alarm, rule: Rule, seen: seq<Seen>, limit: nat, o: Seen, newId: Id)
    requires limit >= 1 && o.active
    requires a.id == newId && a.ruleId == rule.id && a.conditionActive && a.lastObserved == o.at && a.occurrences == 1
    requires a.firstObserved == BlockStart(seen + [o])
    requires a.evidence == AppendEvidence([], o.evidence, limit)
    requires a.severity == if o.severity.Rank() > rule.severity.Rank() then o.severity else rule.severity
    ensures Describes(a, rule, seen + [o], Episode(newId, |seen|), limit)
  {
    assert (seen + [o])[|seen|..] == [o] && [o][..0] == [];
    assert (seen + [o])[..|seen| + 1] == seen + [o];
  }

  predicate Newer(seen: seq<Seen>, at: Time) {
    seen == [] || seen[|seen| - 1].at < at
  }

  /** An observation as the reference sees it. */
  function AsSeen(o: Observation): Seen {
    Seen(o.observedAt, o.active, o.severity, o.evidence)
  }

  lemma {:induction false} IncreasingSnoc(seen: seq<Seen>, o: Seen)
    requires Increasing(seen) && Newer(seen, o.at) && o.at != 0
    ensures Increasing(seen + [o])
  {
  }

  /** The rule state and alarm once `o` is applied, with the alarm as stored. */
  function Applied(rs: RuleState, alarm: Option<Alarm>, o: Observation, newId: Id, limit: nat): (RuleState, Option<Alarm>) {
    var (rs', stored, _) := ApplyObservation(rs.(lastObservation := o.observedAt), alarm, o, newId, limit);
    (rs', if stored.Some? then stored else alarm)
  }

  function TransitionOf(rs: RuleState, alarm: Option<Alarm>, o: Observation, newId: Id, limit: nat): Transition {
    ApplyObservation(rs.(lastObservation := o.observedAt), alarm, o, newId, limit).2
  }

  ghost predicate Applicable(rs: RuleState, alarm: Option<Alarm>, h: History, limit: nat, o: Observation) {
    limit >= 1 && Tracks(rs, alarm, h, limit) && o.observedAt != 0 && Newer(h.seen, o.observedAt)
  }

  lemma {:induction false} ActiveWhileClosed(rs: RuleState, alarm: Option<Alarm>, h: History, limit: nat, o: Observation, newId: Id)
    requires Applicable(rs, alarm, h, limit, o) && o.active && h.open.None?
    ensures TransitionOf(rs, alarm, o, newId, limit) == Decide(h, AsSeen(o))
    ensures var (rs', alarm') := Applied(rs, alarm, o, newId, limit);
            Tracks(rs', alarm', See(h, AsSeen(o), newId), limit)
  {
    ActiveDecision(rs, alarm, h, limit, o, newId);
    if BlockSpan(h.seen + [AsSeen(o)]) >= h.rule.debounce {
      ActiveRaises(rs, alarm, h, limit, o, newId);
    } else {
      IncreasingSnoc(h.seen, AsSeen(o));
    }
  }

  lemma {:induction false} ActiveDecision(rs: RuleState, alarm: Option<Alarm>, h: History, limit: nat, o: Observation, newId: Id)
    requires Applicable(rs, alarm, h, limit, o) && o.active && h.open.None?
    ensures TransitionOf(rs, alarm, o, newId, limit) == Decide(h, AsSeen(o))
    ensures var start, (rs', alarm') := BlockStart(h.seen + [AsSeen(o)]), Applied(rs, alarm, o, newId, limit);
            if Decide(h, AsSeen(o)) == Raised then alarm'.Some? && alarm'.value.firstObserved == start
            else rs'.pendingActive == Some(start) && alarm' == alarm
  {
    BlockStartSnoc(h.seen, AsSeen(o));
  }

  lemma {:induction false} ActiveRaises(rs: RuleState, alarm: Option<Alarm>, h: History, limit: nat, o: Observation, newId: Id)
    requires Applicable(rs, alarm, h, limit, o) && o.active && h.open.None?
    requires BlockSpan(h.seen + [AsSeen(o)]) >= h.rule.debounce
    ensures var (rs', alarm') := Applied(rs, alarm, o, newId, limit);
            Tracks(rs', alarm', See(h, AsSeen(o), newId), limit)
  {
    ActiveDecision(rs, alarm, h, limit, o, newId);
    IncreasingSnoc(h.seen, AsSeen(o));
    DescribesRaised(Applied(rs, alarm, o, newId, limit).1.value, h.rule, h.seen, limit, AsSeen(o), newId);
  }

  lemma {:induction false} ActiveWhileOpen(rs: RuleState, alarm: Option<Alarm>, h: History, limit: nat, o: Observation, newId: Id)
    requires Applicable(rs, alarm, h, limit, o) && o.active && h.open.Some?
    ensures TransitionOf(rs, alarm, o, newId, limit) == Decide(h, AsSeen(o))
    ensures var (rs', alarm') := Applied(rs, alarm, o, newId, limit);
            Tracks(rs', alarm', See(h, AsSeen(o), newId), limit)
  {
    ReactivationDecision(rs, alarm, h, limit, o, newId);
    IncreasingSnoc(h.seen, AsSeen(o));
    DescribesSnoc(alarm.value, h.rule, h.seen, h.open.value, limit, AsSeen(o), Applied(rs, alarm, o, newId, limit).1.value);
  }

  lemma {:induction false} ReactivationDecision(rs: RuleState, alarm: Option<Alarm>, h: History, limit: nat, o: Observation, newId: Id)
    requires Applicable(rs, alarm, h, limit, o) && o.active && h.open.Some?
    ensures TransitionOf(rs, alarm, o, newId, limit) == Decide(h, AsSeen(o))
    ensures Decide(h, AsSeen(o)) == Escalated || Decide(h, AsSeen(o)) == NoChange
  {
  }

  lemma {:induction false} HealthyWhileClosed(rs: RuleState, alarm: Option<Alarm>, h: History, limit: nat, o: Observation, newId: Id)
    requires Applicable(rs, alarm, h, limit, o) && !o.active && h.open.None?
    ensures TransitionOf(rs, alarm, o, newId, limit) == Decide(h, AsSeen(o))
    ensures var (rs', alarm') := Applied(rs, alarm, o, newId, limit);
            Tracks(rs', alarm', See(h, AsSeen(o), newId), limit)
  {
    IncreasingSnoc(h.seen, AsSeen(o));
  }

  lemma {:induction false} HealthyDecision(rs: RuleState, alarm: Option<Alarm>, h: History, limit: nat, o: Observation, newId: Id)
    requires Applicable(rs, alarm, h, limit, o) && !o.active && h.open.Some?
    ensures TransitionOf(rs, alarm, o, newId, limit) == Decide(h, AsSeen(o))
    ensures Decide(h, AsSeen(o)) == AutoCleared || Decide(h, AsSeen(o)) == ClearPending
    ensures Decide(h, AsSeen(o)) == ClearPending
            ==> Applied(rs, alarm, o, newId, limit).0.pendingClear == Some(BlockStart(h.seen + [AsSeen(o)]))
  {
    BlockStartSnoc(h.seen, AsSeen(o));
  }

  lemma {:induction false} HealthyWhileOpen(rs: RuleState, alarm: Option<Alarm>, h: History, limit: nat, o: Observation, newId: Id)
    requires Applicable(rs, alarm, h, limit, o) && !o.active && h.open.Some?
    ensures var (rs', alarm') := Applied(rs, alarm, o, newId, limit);
            Tracks(rs', alarm', See(h, AsSeen(o), newId), limit)
  {
    HealthyDecision(rs, alarm, h, limit, o, newId);
    if Decide(h, AsSeen(o)) == ClearPending {
      HealthyWaits(rs, alarm, h, limit, o, newId);
    } else {
      HealthyClears(rs, alarm, h, limit, o, newId);
    }
  }

  lemma {:induction false} HealthyWaits(rs: RuleState, alarm: Option<Alarm>, h: History, limit: nat, o: Observation, newId: Id)
    requires Applicable(rs, alarm, h, limit, o) && !o.active && h.open.Some?
    requires Decide(h, AsSeen(o)) == ClearPending && TransitionOf(rs, alarm, o, newId, limit) == ClearPending
    requires Applied(rs, alarm, o, newId, limit).0.pendingClear == Some(BlockStart(h.seen + [AsSeen(o)]))
    ensures var (rs', alarm') := Applied(rs, alarm, o, newId, limit);
            Tracks(rs', alarm', See(h, AsSeen(o), newId), limit)
  {
    IncreasingSnoc(h.seen, AsSeen(o));
    DescribesSnoc(alarm.value, h.rule, h.seen, h.open.value, limit, AsSeen(o), Applied(rs, alarm, o, newId, limit).1.value);
  }

  lemma {:induction false} HealthyClears(rs: RuleState, alarm: Option<Alarm>, h: History, limit: nat, o: Observation, newId: Id)
    requires Applicable(rs, alarm, h, limit, o) && !o.active && h.open.Some?
    requires Decide(h, AsSeen(o)) == AutoCleared && TransitionOf(rs, alarm, o, newId, limit) == AutoCleared
    ensures var (rs', alarm') := Applied(rs, alarm, o, newId, limit);
            Tracks(rs', alarm', See(h, AsSeen(o), newId), limit)
  {
    IncreasingSnoc(h.seen, AsSeen(o));
  }

  // ---------- Whole runs ----------

  /** The rule named by the history is registered and its state tracks the history. */
  ghost predicate Tracked(m: Manager, h: History) {
    && h.rule.id in m.rules
    && Tracks(m.rules[h.rule.id], m.CurrentAlarm(h.rule.id), h, m.evidenceLimit)
  }

  lemma {:induction false} RegisteredIsTracked(m: Manager, rule: Rule)
    requires m.Valid() && RegisterRule(m, rule).1 == Done
    ensures Tracked(RegisterRule(m, rule).0, History(rule, [], None))
  {
  }

  lemma {:induction false} ApplyTracks(rs: RuleState, alarm: Option<Alarm>, h: History, limit: nat, o: Observation, newId: Id)
    requires Applicable(rs, alarm, h, limit, o)
    ensures TransitionOf(rs, alarm, o, newId, limit) == Decide(h, AsSeen(o))
    ensures var (rs', alarm') := Applied(rs, alarm, o, newId, limit);
            Tracks(rs', alarm', See(h, AsSeen(o), newId), limit)
  {
    if o.active {
      if h.open.Some? { ActiveWhileOpen(rs, alarm, h, limit, o, newId); } else { ActiveWhileClosed(rs, alarm, h, limit, o, newId); }
    } else {
      if h.open.Some? {
        HealthyDecision(rs, alarm, h, limit, o, newId);
        HealthyWhileOpen(rs, alarm, h, limit, o, newId);
      } else {
        HealthyWhileClosed(rs, alarm, h, limit, o, newId);
      }
    }
  }

  /** What an accepted observation leaves in the tables, for its own rule. */
  lemma {:induction false} ObserveStores(m: Manager, o: Observation, clock: Time, newId: Id)
    requires m.Valid() && newId !in m.alarms && o.ruleId in m.rules
    requires !IsStale(m.rules[o.ruleId], ObservationTime(o, clock))
    ensures var timed := o.(observedAt := ObservationTime(o, clock));
            var (m', observed) := Observe(m, o, clock, newId);
            && observed == Observed(TransitionOf(m.rules[o.ruleId], m.CurrentAlarm(o.ruleId), timed, newId, m.evidenceLimit))
            && m'.evidenceLimit == m.evidenceLimit && o.ruleId in m'.rules
            && (m'.rules[o.ruleId], m'.CurrentAlarm(o.ruleId))
               == Applied(m.rules[o.ruleId], m.CurrentAlarm(o.ruleId), timed, newId, m.evidenceLimit)
  {
    var timed := o.(observedAt := ObservationTime(o, clock));
    ApplyShape(m.rules[o.ruleId].(lastObservation := timed.observedAt), m.CurrentAlarm(o.ruleId), timed, newId, m.evidenceLimit);
  }

  lemma {:induction false} ObserveTracks(m: Manager, h: History, o: Observation, clock: Time, newId: Id)
    requires m.Valid() && Tracked(m, h) && o.ruleId == h.rule.id
    requires clock != 0 && newId !in m.alarms
    ensures var (m', observed) := Observe(m, o, clock, newId);
            && observed == Observed(Decide(h, SeenAs(o, clock)))
            && Tracked(m', See(h, SeenAs(o, clock), newId))
  {
    var timed := o.(observedAt := ObservationTime(o, clock));
    assert AsSeen(timed) == SeenAs(o, clock);
    var rs := m.rules[o.ruleId];
    assert h.seen != [] ==> h.seen[|h.seen| - 1].at != 0;
    if !IsStale(rs, timed.observedAt) {
      ApplyTracks(rs, m.CurrentAlarm(o.ruleId), h, m.evidenceLimit, timed, newId);
      ObserveStores(m, o, clock, newId);
    }
  }

  /** Another rule's observation leaves this rule and its alarm alone. */
  lemma {:induction false} ObserveElsewhere(m: Manager, r: Id, o: Observation, clock: Time, newId: Id)
    requires m.Valid() && r in m.rules && o.ruleId != r && newId !in m.alarms
    ensures var m' := Observe(m, o, clock, newId).0;
            && m'.evidenceLimit == m.evidenceLimit && r in m'.rules && m'.rules[r] == m.rules[r]
            && m'.CurrentAlarm(r) == m.CurrentAlarm(r)
  {
    if o.ruleId in m.rules {
      var at := ObservationTime(o, clock);
      ApplyShape(m.rules[o.ruleId].(lastObservation := at), m.CurrentAlarm(o.ruleId), o.(observedAt := at), newId, m.evidenceLimit);
    }
  }

  /** An explicit clear of a rule's alarm succeeds exactly when the reference has it open
      with a healthy condition. */
  lemma {:induction false} ClearTracks(m: Manager, h: History, id: Id, clock: Time)
    requires m.Valid() && Tracked(m, h)
    ensures Tracked(Clear(m, id, clock).0, if ClearsOpen(h, id) then h.(open := None) else h)
    ensures m.rules[h.rule.id].current == Some(id) ==> (Clear(m, id, clock).1 == Done <==> ClearsOpen(h, id))
  {
    var r := h.rule.id;
    var m' := Clear(m, id, clock).0;
    if m.rules[r].current == Some(id) {
      assert m.CurrentAlarm(r) == Some(m.alarms[id]);
      assert m'.CurrentAlarm(r) == Some(m'.alarms[id]);
    } else {
      assert m'.CurrentAlarm(r) == m.CurrentAlarm(r);
    }
  }

  lemma {:induction false} AcknowledgeTracks(m: Manager, h: History, id: Id, clock: Time)
    requires m.Valid() && Tracked(m, h)
    ensures Tracked(Acknowledge(m, id, clock).0, h)
  {
    var r := h.rule.id;
    var m' := Acknowledge(m, id, clock).0;
    if m.rules[r].current == Some(id) {
      assert m.CurrentAlarm(r) == Some(m.alarms[id]);
      assert m'.CurrentAlarm(r) == Some(m'.alarms[id]);
    } else {
      assert m'.CurrentAlarm(r) == m.CurrentAlarm(r);
    }
  }

  lemma {:induction false} StepTracks(m: Manager, h: History, op: Op)
    requires m.Valid() && Tracked(m, h) && Sound(m, op)
    ensures Tracked(Step(m, op), Follow(h, op))
  {
    match op
    case ObserveOp(o, clock, newId) =>
      if o.ruleId == h.rule.id { ObserveTracks(m, h, o, clock, newId); } else { ObserveElsewhere(m, h.rule.id, o, clock, newId); }
    case ClearOp(id, clock) => ClearTracks(m, h, id, clock);
    case AcknowledgeOp(id, clock) => AcknowledgeTracks(m, h, id, clock);
    case RegisterOp(rule) => assert Step(m, op).CurrentAlarm(h.rule.id) == m.CurrentAlarm(h.rule.id);
  }

  /** The transitions that a run's observations of one rule produce. */
  function Transitions(m: Manager, ops: seq<Op>, r: Id): seq<Observed>
    decreases |ops|
  {
    if ops == [] then []
    else
      (if ops[0].ObserveOp? && ops[0].observation.ruleId == r
       then [Observe(m, ops[0].observation, ops[0].clock, ops[0].newId).1] else [])
      + Transitions(Step(m, ops[0]), ops[1..], r)
  }

  function Decisions(h: History, ops: seq<Op>): seq<Observed>
    decreases |ops|
  {
    if ops == [] then []
    else
      (if ops[0].ObserveOp? && ops[0].observation.ruleId == h.rule.id
       then [Observed(Decide(h, SeenAs(ops[0].observation, ops[0].clock)))] else [])
      + Decisions(Follow(h, ops[0]), ops[1..])
  }

  function FollowAll(h: History, ops: seq<Op>): History
    decreases |ops|
  {
    if ops == [] then h else FollowAll(Follow(h, ops[0]), ops[1..])
  }

  lemma {:induction false} FollowKeepsRule(h: History, op: Op)
    ensures Follow(h, op).rule == h.rule
  {
  }

  /** Main result: over every run, whatever happens to other rules, each rule's transitions
      are the decisions of the history-based reference, and the alarm it has open is
      described by that history. */
  lemma {:induction false} EngineRefinesHistory(m: Manager, h: History, ops: seq<Op>)
    requires m.Valid() && Tracked(m, h) && SoundRun(m, ops)
    ensures Transitions(m, ops, h.rule.id) == Decisions(h, ops)
    ensures Tracked(Run(m, ops), FollowAll(h, ops))
    decreases |ops|
  {
    if ops != [] {
      StepTracks(m, h, ops[0]);
      StepKeepsValid(m, ops[0]);
      FollowKeepsRule(h, ops[0]);
      EngineRefinesHistory(Step(m, ops[0]), Follow(h, ops[0]), ops[1..]);
      if ops[0].ObserveOp? && ops[0].observation.ruleId == h.rule.id {
        ObserveTracks(m, h, ops[0].observation, ops[0].clock, ops[0].newId);
      }
    }
  }

  /** The trailing block is what its name says: a maximal run of agreeing observations at
      the end of the history. */
  lemma {:induction false} BlockStartIsOldestAgreeing(seen: seq<Seen>) returns (k: nat)
    requires seen != []
    ensures k < |seen| && BlockStart(seen) == seen[k].at
    ensures forall i :: k <= i < |seen| ==> seen[i].active == seen[|seen| - 1].active
    ensures k == 0 || seen[k - 1].active != seen[|seen| - 1].active
  {
    var n := |seen|;
    if n == 1 || seen[n - 2].active != seen[n - 1].active {
      k := n - 1;
    } else {
      k := BlockStartIsOldestAgreeing(seen[..n - 1]);
    }
  }

  /** At any moment of any run: an alarm is raised exactly when the observation is newer,
      active, finds no open alarm, and ends an active block of at least the debounce time;
      it clears by itself exactly when the rule does not latch, it is open, and the healthy
      block has lasted the hysteresis time. */
  lemma {:induction false} RaisedAndClearedExactlyWhen(m: Manager, h: History, o: Observation, clock: Time, newId: Id)
    requires m.Valid() && Tracked(m, h) && o.ruleId == h.rule.id && clock != 0 && newId !in m.alarms
    ensures var observed, seen := Observe(m, o, clock, newId).1, SeenAs(o, clock);
            && (observed == Observed(Raised) <==>
                  && Newer(h.seen, seen.at) && o.active && !IsOpen(m.CurrentAlarm(o.ruleId))
                  && BlockSpan(h.seen + [seen]) >= h.rule.debounce)
            && (observed == Observed(AutoCleared) <==>
                  && Newer(h.seen, seen.at) && !o.active && IsOpen(m.CurrentAlarm(o.ruleId))
                  && !h.rule.latching && BlockSpan(h.seen + [seen]) >= h.rule.hysteresis)
  {
    ObserveTracks(m, h, o, clock, newId);
    DecideExactlyWhen(h, SeenAs(o, clock));
    assert IsOpen(m.CurrentAlarm(o.ruleId)) <==> h.open.Some?;
  }

  lemma {:induction false} DecideExactlyWhen(h: History, o: Seen)
    ensures Decide(h, o) == Raised
            <==> Newer(h.seen, o.at) && o.active && h.open.None? && BlockSpan(h.seen + [o]) >= h.rule.debounce
    ensures Decide(h, o) == AutoCleared
            <==> && Newer(h.seen, o.at) && !o.active && h.open.Some?
                 && !h.rule.latching && BlockSpan(h.seen + [o]) >= h.rule.hysteresis
  {
  }

  // ---------- Duplicates and late deliveries ----------

  /** A run without the observations of known rules that are not newer than the ones kept. */
  function KeepNewer(ops: seq<Op>, known: set<Id>, latest: map<Id, Time>): seq<Op>
    decreases |ops|
  {
    if ops == [] then []
    else match ops[0]
      case ObserveOp(o, clock, _) =>
        var at := ObservationTime(o, clock);
        if o.ruleId !in known then [ops[0]] + KeepNewer(ops[1..], known, latest)
        else if o.ruleId in latest && at <= latest[o.ruleId] then KeepNewer(ops[1..], known, latest)
        else [ops[0]] + KeepNewer(ops[1..], known, latest[o.ruleId := at])
      case RegisterOp(rule) =>
        [ops[0]] + KeepNewer(ops[1..], if rule.Valid() then known + {rule.id} else known, latest)
      case _ => [ops[0]] + KeepNewer(ops[1..], known, latest)
  }

  /** Each rule's latest accepted time, for the rules that have one. */
  function LatestOf(m: Manager): map<Id, Time> {
    map r | r in m.rules && m.rules[r].lastObservation != 0 :: m.rules[r].lastObservation
  }

  lemma {:induction false} ObserveAdvancesLatest(m: Manager, o: Observation, clock: Time, newId: Id)
    requires clock != 0
    ensures var m' := Observe(m, o, clock, newId).0;
            var at := ObservationTime(o, clock);
            && m'.rules.Keys == m.rules.Keys
            && (o.ruleId !in m.rules ==> m' == m)
            && (o.ruleId in LatestOf(m) && at <= LatestOf(m)[o.ruleId] ==> m' == m)
            && (o.ruleId in m.rules && !(o.ruleId in LatestOf(m) && at <= LatestOf(m)[o.ruleId])
                ==> LatestOf(m') == LatestOf(m)[o.ruleId := at])
  {
    if o.ruleId in m.rules && !IsStale(m.rules[o.ruleId], ObservationTime(o, clock)) {
      var at := ObservationTime(o, clock);
      var m' := Observe(m, o, clock, newId).0;
      assert m'.rules[o.ruleId].lastObservation == at;
      assert forall r :: r in m.rules && r != o.ruleId ==> m'.rules[r] == m.rules[r];
      assert LatestOf(m') == LatestOf(m)[o.ruleId := at];
    }
  }

  /** Main result: duplicates and late observations leave no trace. A run ends in the same
      state, rules and alarms alike, as the run that keeps only newer observations. */
  lemma {:induction false} LateDeliveryIsHarmless(m: Manager, ops: seq<Op>)
    requires m.Valid() && SoundRun(m, ops)
    ensures Run(m, ops) == Run(m, KeepNewer(ops, m.rules.Keys, LatestOf(m)))
    decreases |ops|
  {
    if ops != [] {
      var op, m' := ops[0], Step(m, ops[0]);
      StepKeepsValid(m, op);
      LateDeliveryIsHarmless(m', ops[1..]);
      if op.ObserveOp? {
        ObserveAdvancesLatest(m, op.observation, op.clock, op.newId);
        var at := ObservationTime(op.observation, op.clock);
        if op.observation.ruleId in m.rules && op.observation.ruleId in LatestOf(m) && at <= LatestOf(m)[op.observation.ruleId] {
          assert m' == m;
        } else {
          RunCons(m, op, KeepNewer(ops[1..], m'.rules.Keys, LatestOf(m')));
        }
      } else {
        LatestUnmoved(m, op);
        RunCons(m, op, KeepNewer(ops[1..], m'.rules.Keys, LatestOf(m')));
      }
    }
  }

  lemma {:induction false} RunCons(m: Manager, op: Op, rest: seq<Op>)
    ensures Run(m, [op] + rest) == Run(Step(m, op), rest)
  {
    assert ([op] + rest)[1..] == rest;
  }

  lemma {:induction false} LatestUnmoved(m: Manager, op: Op)
    requires !op.ObserveOp?
    ensures LatestOf(Step(m, op)) == LatestOf(m)
    ensures Step(m, op).rules.Keys == if op.RegisterOp? && op.rule.Valid() then m.rules.Keys + {op.rule.id} else m.rules.Keys
  {
    if op.RegisterOp? {
      assert LatestOf(Step(m, op)) == LatestOf(m);
    }
  }

  // ---------- Acknowledgement ----------

  /** An alarm with its acknowledgement forgotten. */
  function Forget(a: Alarm): Alarm {
    a.(status := if a.status == Acknowledged then Active else a.status, acknowledgedAt := None)
  }

  /** The managers differ at most in acknowledgements. */
  ghost predicate Alike(m: Manager, p: Manager) {
    && m.rules == p.rules && m.evidenceLimit == p.evidenceLimit && m.alarms.Keys == p.alarms.Keys
    && forall a :: a in m.alarms ==> Forget(m.alarms[a]) == Forget(p.alarms[a])
  }

  function ForgetIn(alarm: Option<Alarm>): Option<Alarm> {
    if alarm.Some? then Some(Forget(alarm.value)) else None
  }

  lemma {:induction false} ApplyIgnoresAcknowledgement(rs: RuleState, a: Option<Alarm>, b: Option<Alarm>, o: Observation, newId: Id, limit: nat)
    requires ForgetIn(a) == ForgetIn(b)
    ensures var (rs', a', transition) := ApplyObservation(rs, a, o, newId, limit);
            var (rs'', b', transition') := ApplyObservation(rs, b, o, newId, limit);
            rs' == rs'' && transition == transition' && ForgetIn(a') == ForgetIn(b')
  {
  }

  lemma {:induction false} ObserveStaysAlike(m: Manager, p: Manager, o: Observation, clock: Time, newId: Id)
    requires Alike(m, p)
    ensures Alike(Observe(m, o, clock, newId).0, Observe(p, o, clock, newId).0)
    ensures Observe(m, o, clock, newId).1 == Observe(p, o, clock, newId).1
  {
    if o.ruleId in m.rules {
      var at := ObservationTime(o, clock);
      ApplyIgnoresAcknowledgement(
        m.rules[o.ruleId].(lastObservation := at), m.CurrentAlarm(o.ruleId), p.CurrentAlarm(o.ruleId),
        o.(observedAt := at), newId, m.evidenceLimit);
    }
  }

  lemma {:induction false} StepStaysAlike(m: Manager, p: Manager, op: Op)
    requires Alike(m, p)
    ensures Alike(Step(m, op), if op.AcknowledgeOp? then p else Step(p, op))
    ensures op.ClearOp? ==> Clear(m, op.cleared, op.clock).1 == Clear(p, op.cleared, op.clock).1
  {
    match op
    case ObserveOp(o, clock, newId) => ObserveStaysAlike(m, p, o, clock, newId);
    case ClearOp(id, clock) => ClearStaysAlike(m, p, id, clock);
    case _ =>
  }

  lemma {:induction false} ClearStaysAlike(m: Manager, p: Manager, id: Id, clock: Time)
    requires Alike(m, p)
    ensures Alike(Clear(m, id, clock).0, Clear(p, id, clock).0) && Clear(m, id, clock).1 == Clear(p, id, clock).1
  {
    if id in m.alarms {
      assert Forget(m.alarms[id]) == Forget(p.alarms[id]);
    }
  }

  /** What the observations and explicit clears of a run decide, in order. */
  datatype Decision = OnObservation(observed: Observed) | OnClear(outcome: Outcome)

  function Log(m: Manager, ops: seq<Op>): seq<Decision>
    decreases |ops|
  {
    if ops == [] then []
    else
      (match ops[0]
       case ObserveOp(o, clock, newId) => [OnObservation(Observe(m, o, clock, newId).1)]
       case ClearOp(id, clock) => [OnClear(Clear(m, id, clock).1)]
       case _ => [])
      + Log(Step(m, ops[0]), ops[1..])
  }

  function WithoutAcknowledgements(ops: seq<Op>): seq<Op> {
    if ops == [] then []
    else (if ops[0].AcknowledgeOp? then [] else [ops[0]]) + WithoutAcknowledgements(ops[1..])
  }

  /** Main result: acknowledging, wherever and however often, changes no later decision to
      raise, escalate or clear, and nothing in the final state but the acknowledgements. */
  lemma {:induction false} AcknowledgingDecidesNothing(m: Manager, p: Manager, ops: seq<Op>)
    requires Alike(m, p)
    ensures Log(m, ops) == Log(p, WithoutAcknowledgements(ops))
    ensures Alike(Run(m, ops), Run(p, WithoutAcknowledgements(ops)))
    decreases |ops|
  {
    if ops != [] {
      var op, rest := ops[0], WithoutAcknowledgements(ops[1..]);
      StepStaysAlike(m, p, op);
      if op.AcknowledgeOp? {
        assert WithoutAcknowledgements(ops) == rest;
        AcknowledgingDecidesNothing(Step(m, op), p, ops[1..]);
      } else {
        assert WithoutAcknowledgements(ops)[1..] == rest;
        AcknowledgingDecidesNothing(Step(m, op), Step(p, op), ops[1..]);
        if op.ObserveOp? {
          ObserveStaysAlike(m, p, op.observation, op.clock, op.newId);
        }
      }
    }
  }

  // ---------- Life of an alarm ----------

  /** What an accepted observation does to the status of the rule's alarm: a raised one is
      active, neither acknowledged nor cleared; one that clears by itself is cleared as of the
      observation; any other keeps its status and its acknowledgement. */
  lemma {:induction false} ObservedStatus(m: Manager, o: Observation, clock: Time, newId: Id)
    requires m.Valid() && newId !in m.alarms && o.ruleId in m.rules
    ensures var (m', observed) := Observe(m, o, clock, newId);
            var before, after := m.CurrentAlarm(o.ruleId), m'.CurrentAlarm(o.ruleId);
            && observed.Observed?
            && (observed.transition == Raised ==>
                  after.Some? && after.value.status == Active && after.value.acknowledgedAt == None && after.value.clearedAt == None)
            && (observed.transition == AutoCleared ==>
                  && before.Some? && after.Some? && after.value.status == Cleared
                  && after.value.clearedAt == Some(if o.observedAt == 0 then clock else o.observedAt)
                  && after.value.acknowledgedAt == before.value.acknowledgedAt)
            && (observed.transition !in {Raised, AutoCleared} ==>
                  && (after.Some? <==> before.Some?)
                  && (after.Some? ==>
                        && after.value.status == before.value.status && after.value.id == before.value.id
                        && after.value.acknowledgedAt == before.value.acknowledgedAt && after.value.clearedAt == before.value.clearedAt))
  {
    if !IsStale(m.rules[o.ruleId], ObservationTime(o, clock)) {
      ObserveStores(m, o, clock, newId);
      var timed := o.(observedAt := ObservationTime(o, clock));
      AppliedStatus(m.rules[o.ruleId], m.CurrentAlarm(o.ruleId), timed, newId, m.evidenceLimit);
    }
  }

  lemma {:induction false} AppliedStatus(rs: RuleState, alarm: Option<Alarm>, o: Observation, newId: Id, limit: nat)
    ensures var transition, after := TransitionOf(rs, alarm, o, newId, limit), Applied(rs, alarm, o, newId, limit).1;
            && (transition == Raised ==>
                  after.Some? && after.value.status == Active && after.value.acknowledgedAt == None && after.value.clearedAt == None)
            && (transition == AutoCleared ==>
                  && alarm.Some? && after.Some? && after.value.status == Cleared && after.value.clearedAt == Some(o.observedAt)
                  && after.value.acknowledgedAt == alarm.value.acknowledgedAt)
            && (transition !in {Raised, AutoCleared} ==>
                  && (after.Some? <==> alarm.Some?)
                  && (after.Some? ==>
                        && after.value.status == alarm.value.status && after.value.id == alarm.value.id
                        && after.value.acknowledgedAt == alarm.value.acknowledgedAt && after.value.clearedAt == alarm.value.clearedAt))
  {
  }

  /** An alarm is acknowledged exactly when it is active, and then only that changes. */
  lemma {:induction false} AcknowledgedIff(m: Manager, id: Id, clock: Time)
    ensures var (m', outcome) := Acknowledge(m, id, clock);
            && (outcome == NotFound <==> id !in m.alarms)
            && (outcome == Done <==> id in m.alarms && m.alarms[id].status == Active)
            && (outcome == Done ==>
                  m' == m.(alarms := m.alarms[id := m.alarms[id].(status := Acknowledged, acknowledgedAt := Some(clock))]))
            && (outcome != Done ==> m' == m)
  {
  }

  /** An alarm is cleared exactly when its condition is healthy and it is not cleared yet. */
  lemma {:induction false} ClearedIff(m: Manager, id: Id, clock: Time)
    ensures var (m', outcome) := Clear(m, id, clock);
            && (outcome == NotFound <==> id !in m.alarms)
            && (outcome == ConditionActive <==> id in m.alarms && m.alarms[id].conditionActive)
            && (outcome == Done <==> id in m.alarms && !m.alarms[id].conditionActive && m.alarms[id].status != Cleared)
            && (outcome == Done ==> m' == m.(alarms := m.alarms[id := m.alarms[id].(status := Cleared, clearedAt := Some(clock))]))
            && (outcome != Done ==> m' == m)
  {
  }

  /** A rule is registered exactly when it names itself, its subject and what it is about, has
      a severity, waits no negative time, and is new. */
  lemma {:induction false} RegisteredIff(m: Manager, rule: Rule)
    ensures RegisterRule(m, rule).1 == Done <==>
            && ValidUuid(rule.id) && ValidUuid(rule.subjectId)
            && |rule.code| > 0 && |rule.name| > 0 && |rule.subjectKind| > 0
            && rule.severity in {Debug, Info, Warning, Critical} && rule.debounce >= 0 && rule.hysteresis >= 0
            && rule.id !in m.rules
    ensures RegisterRule(m, rule).1 != Done ==> RegisterRule(m, rule).0 == m
  {
  }

  /** Severities are ranked, so that one escalation is the worst seen. */
  lemma {:induction false} WorstIsWorst(base: Severity, seen: seq<Seen>)
    ensures base.Rank() <= Worst(base, seen).Rank()
    ensures forall i :: 0 <= i < |seen| && seen[i].active ==> seen[i].severity.Rank() <= Worst(base, seen).Rank()
    ensures Worst(base, seen) == base || exists i :: 0 <= i < |seen| && seen[i].active && Worst(base, seen) == seen[i].severity
    ensures Unspecified.Rank() < Debug.Rank() < Info.Rank() < Warning.Rank() < Critical.Rank()
    decreases |seen|
  {
    if seen != [] {
      var before := seen[..|seen| - 1];
      WorstIsWorst(base, before);
      assert forall i :: 0 <= i < |before| ==> before[i] == seen[i];
    }
  }
}
