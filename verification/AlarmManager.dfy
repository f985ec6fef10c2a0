/** The alarm manager that updates its rules and alarms in place. Every method is proved
    against the functions of `Alarms`. */
module AlarmManager {
  import opened Domain
  import A = Alarms

  class Manager {
    var rules: map<Id, A.RuleState>
    var alarms: map<Id, A.Alarm>
    const evidenceLimit: nat

    ghost function Abs(): A.Manager
      reads this
    {
      A.Manager(rules, alarms, evidenceLimit)
    }

    /** An evidence limit below one counts as one. */
    constructor (limit: int)
      ensures Abs() == A.Manager(map[], map[], if limit < 1 then 1 else limit)
      ensures Abs().Valid()
    {
      rules, alarms := map[], map[];
      evidenceLimit := if limit < 1 then 1 else limit;
    }

    method RegisterRule(rule: A.Rule) returns (outcome: A.Outcome)
      modifies this`rules
      ensures (Abs(), outcome) == A.RegisterRule(old(Abs()), rule)
    {
      if !rule.Valid() {
        return A.Rejected;
      }
      if rule.id in rules {
        return A.Duplicate;
      }
      rules := rules[rule.id := A.RuleState(rule, None, None, 0, None)];
      outcome := A.Done;
    }

    method Observe(observation: A.Observation, clock: Time, newId: Id) returns (observed: A.Observed)
      requires Abs().Valid()
      modifies this
      ensures (Abs(), observed) == A.Observe(old(Abs()), observation, clock, newId)
    {
      var o := observation;
      if o.observedAt == 0 {
        o := o.(observedAt := clock);
      }
      if o.ruleId !in rules {
        return A.RuleNotFound;
      }
      var rs := rules[o.ruleId];
      if rs.lastObservation != 0 && o.observedAt <= rs.lastObservation {
        return A.Observed(A.IgnoredStale);
      }
      rs := rs.(lastObservation := o.observedAt);
      var rs', alarm, transition := ApplyObservation(rs, o, newId);
      rules := rules[o.ruleId := rs'];
      if alarm.Some? {
        alarms := alarms[alarm.value.id := alarm.value];
      }
      observed := A.Observed(transition);
    }

    method ApplyObservation(given: A.RuleState, o: A.Observation, newId: Id)
      returns (rs: A.RuleState, alarm: Option<A.Alarm>, transition: A.Transition)
      requires given.current.Some? ==> given.current.value in alarms
      ensures var current := if given.current.Some? then Some(alarms[given.current.value]) else None;
              (rs, alarm, transition) == A.ApplyObservation(given, current, o, newId, evidenceLimit)
    {
      rs := given;
      if o.active {
        rs := rs.(pendingClear := None);
        if rs.current.None? || alarms[rs.current.value].status == A.Cleared {
          if rs.pendingActive.None? {
            rs := rs.(pendingActive := Some(o.observedAt));
          }
          if o.observedAt - rs.pendingActive.value < rs.rule.debounce {
            return rs, None, A.Debouncing;
          }
          var severity := rs.rule.severity;
          if o.severity.Rank() > severity.Rank() {
            severity := o.severity;
          }
          alarm := Some(A.Alarm(
            newId, rs.rule.id, severity, A.Active, true, A.AppendEvidence([], o.evidence, evidenceLimit),
            rs.pendingActive.value, o.observedAt, 1, None, None));
          rs := rs.(current := Some(newId), pendingActive := None);
          return rs, alarm, A.Raised;
        }
        var open := alarms[rs.current.value];
        open := open.(
          conditionActive := true, lastObserved := o.observedAt, occurrences := open.occurrences + 1,
          evidence := A.AppendEvidence(open.evidence, o.evidence, evidenceLimit));
        if o.severity.Rank() > open.severity.Rank() {
          return rs, Some(open.(severity := o.severity)), A.Escalated;
        }
        return rs, Some(open), A.NoChange;
      }
      rs := rs.(pendingActive := None);
      if rs.current.None? {
        return rs, None, A.NoChange;
      }
      var seen := alarms[rs.current.value];
      if seen.status == A.Cleared {
        return rs, Some(seen), A.NoChange;
      }
      seen := seen.(
        conditionActive := false, lastObserved := o.observedAt,
        evidence := A.AppendEvidence(seen.evidence, o.evidence, evidenceLimit));
      if rs.pendingClear.None? {
        rs := rs.(pendingClear := Some(o.observedAt));
      }
      if o.observedAt - rs.pendingClear.value < rs.rule.hysteresis || rs.rule.latching {
        return rs, Some(seen), A.ClearPending;
      }
      seen := seen.(status := A.Cleared, clearedAt := Some(o.observedAt));
      rs := rs.(pendingClear := None);
      return rs, Some(seen), A.AutoCleared;
    }

    method Acknowledge(id: Id, clock: Time) returns (outcome: A.Outcome)
      modifies this`alarms
      ensures (Abs(), outcome) == A.Acknowledge(old(Abs()), id, clock)
    {
      if id !in alarms {
        return A.NotFound;
      }
      if alarms[id].status != A.Active {
        return A.InvalidTransition;
      }
      alarms := alarms[id := alarms[id].(status := A.Acknowledged, acknowledgedAt := Some(clock))];
      outcome := A.Done;
    }

    method Clear(id: Id, clock: Time) returns (outcome: A.Outcome)
      modifies this`alarms
      ensures (Abs(), outcome) == A.Clear(old(Abs()), id, clock)
    {
      if id !in alarms {
        return A.NotFound;
      }
      if alarms[id].conditionActive {
        return A.ConditionActive;
      }
      if alarms[id].status == A.Cleared {
        return A.InvalidTransition;
      }
      alarms := alarms[id := alarms[id].(status := A.Cleared, clearedAt := Some(clock))];
      outcome := A.Done;
    }
  }
}
