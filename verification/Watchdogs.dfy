/** Watchdog actions over whole runs: when they come, how many there are, and that they
    pass the safety policy themselves. */
module Watchdogs {
  import opened Domain
  import opened Safety
  import opened SafetyRuns
  import Accounting
  import Profile

  /** The actions that a run's checks return for one equipment, in order. */
  function ActionsIn(e: Engine, ops: seq<Op>, id: Id): seq<Action>
    decreases |ops|
  {
    if ops == [] then []
    else ActionsOf(e, ops[0], id) + ActionsIn(Step(e, ops[0]), ops[1..], id)
  }

  function ActionsOf(e: Engine, op: Op, id: Id): seq<Action> {
    if op.CheckOp? && ActionFor(e, id, op.now).Some? then [ActionFor(e, id, op.now).value] else []
  }

  /** How many times a run's reports turn the equipment from off to on. */
  function EpisodesStarted(e: Engine, ops: seq<Op>, id: Id): nat
    decreases |ops|
  {
    if ops == [] then 0
    else
      (if !e.RuntimeOf(id).on && Step(e, ops[0]).RuntimeOf(id).on then 1 else 0)
      + EpisodesStarted(Step(e, ops[0]), ops[1..], id)
  }

  /** An episode that is under way and has not been acted on. */
  predicate Unattended(r: Runtime) {
    r.on && r.watchdogReason.None?
  }

  lemma {:induction false} StepSpendsEpisode(e: Engine, op: Op, id: Id)
    requires e.Valid()
    ensures var r, r' := e.RuntimeOf(id), Step(e, op).RuntimeOf(id);
            |ActionsOf(e, op, id)| + (if Unattended(r') then 1 else 0)
            <= (if Unattended(r) then 1 else 0) + (if !r.on && r'.on then 1 else 0)
  {
    if op.CheckOp? {
      CheckSpendsEpisode(e, op.now, id);
    } else {
      StepRuntime(e, op, id);
      OtherSpendsEpisode(e, op, id);
    }
  }

  lemma {:induction false} CheckSpendsEpisode(e: Engine, now: Time, id: Id)
    requires e.Valid()
    ensures var r, r', action := e.RuntimeOf(id), CheckWatchdogs(e, now).RuntimeOf(id), ActionFor(e, id, now);
            && r'.on == r.on && r'.onSince == r.onSince
            && (action.Some? ==> Unattended(r) && !Unattended(r'))
            && (action.None? ==> r'.watchdogReason == r.watchdogReason)
  {
    CheckRuntime(e, now, id);
    if id in e.profiles {
      CheckKeepsEpisode(e.profiles[id], OverrideDue(e, id, now), e.RuntimeOf(id), now);
    }
  }

  lemma {:induction false} OtherSpendsEpisode(e: Engine, op: Op, id: Id)
    requires !op.CheckOp?
    ensures var r, r' := e.RuntimeOf(id), RuntimeAfter(e, op, id);
            (if Unattended(r') then 1 else 0) <= (if Unattended(r) then 1 else 0) + (if !r.on && r'.on then 1 else 0)
  {
  }

  /** Main result: over any run, with any number of polls and any mix of causes, there are
      no more actions than on-episodes; an episode already acted on gets none. */
  lemma {:induction false} AtMostOneActionPerEpisode(e: Engine, ops: seq<Op>, id: Id)
    requires e.Valid()
    ensures |ActionsIn(e, ops, id)| <= EpisodesStarted(e, ops, id) + (if Unattended(e.RuntimeOf(id)) then 1 else 0)
    decreases |ops|
  {
    if ops != [] {
      StepSpendsEpisode(e, ops[0], id);
      StepKeepsValid(e, ops[0]);
      AtMostOneActionPerEpisode(Step(e, ops[0]), ops[1..], id);
    }
  }

  // ---------- The deadline ----------

  predicate ReportsOff(op: Op, id: Id) {
    op.ReportOp? && op.id == id && !op.on && op.at != 0
  }

  /** No operation of the run reports the equipment off. */
  ghost predicate StaysOn(ops: seq<Op>, id: Id) {
    forall i :: 0 <= i < |ops| ==> !ReportsOff(ops[i], id)
  }

  /** While nothing reports the equipment off it stays on, and repeated on-reports do not
      move the start of the episode; only an action marks it. */
  lemma {:induction false} StepKeepsEpisode(e: Engine, op: Op, id: Id)
    requires e.Valid() && e.RuntimeOf(id).on && !ReportsOff(op, id)
    ensures var r, r' := e.RuntimeOf(id), Step(e, op).RuntimeOf(id);
            && r'.on && r'.onSince == r.onSince
            && (ActionsOf(e, op, id) == [] ==> r'.watchdogReason == r.watchdogReason)
  {
    if op.CheckOp? {
      CheckSpendsEpisode(e, op.now, id);
    } else {
      OtherStepKeepsEpisode(e, op, id);
    }
  }

  lemma {:induction false} OtherStepKeepsEpisode(e: Engine, op: Op, id: Id)
    requires e.Valid() && !op.CheckOp? && e.RuntimeOf(id).on && !ReportsOff(op, id)
    ensures var r, r' := e.RuntimeOf(id), Step(e, op).RuntimeOf(id);
            r'.on && r'.onSince == r.onSince && r'.watchdogReason == r.watchdogReason
  {
    StepRuntime(e, op, id);
    OtherKeepsEpisode(e, op, id);
  }

  lemma {:induction false} OtherKeepsEpisode(e: Engine, op: Op, id: Id)
    requires !op.CheckOp? && e.RuntimeOf(id).on && !ReportsOff(op, id)
    ensures var r, r' := e.RuntimeOf(id), RuntimeAfter(e, op, id);
            r'.on && r'.onSince == r.onSince && r'.watchdogReason == r.watchdogReason
  {
    var call := CallOf(e, op, id);
    if call.Some? {
      ApplyKeepsEpisode(e.RuntimeOf(id), call.value);
    }
  }

  lemma {:induction false} RunKeepsEpisode(e: Engine, ops: seq<Op>, id: Id)
    requires e.Valid() && e.RuntimeOf(id).on && StaysOn(ops, id)
    ensures Run(e, ops).RuntimeOf(id).on
    ensures Run(e, ops).RuntimeOf(id).onSince == e.RuntimeOf(id).onSince
    ensures EpisodesStarted(e, ops, id) == 0
    decreases |ops|
  {
    if ops != [] {
      StepKeepsEpisode(e, ops[0], id);
      StepKeepsValid(e, ops[0]);
      RunKeepsEpisode(Step(e, ops[0]), ops[1..], id);
    }
  }

  function CheckTimes(ops: seq<Op>): seq<Time> {
    if ops == [] then []
    else (if ops[0].CheckOp? then [ops[0].now] else []) + CheckTimes(ops[1..])
  }

  /** Checks come at most `gap` apart, the first at most `gap` after `start`, and go on
      until at least `end`. */
  ghost predicate Polled(polls: seq<Time>, start: Time, gap: Duration, end: Time) {
    && polls != []
    && polls[0] <= start + gap
    && (forall i :: 0 < i < |polls| ==> polls[i] <= polls[i - 1] + gap)
    && end <= polls[|polls| - 1]
  }

  lemma {:induction false} CheckAtDeadlineActs(e: Engine, id: Id, now: Time)
    requires id in e.profiles && e.profiles[id].limits.maximumOn > 0
    requires Unattended(e.RuntimeOf(id))
    requires e.RuntimeOf(id).onSince + e.profiles[id].limits.maximumOn <= now
    ensures ActionFor(e, id, now).Some?
  {
  }

  lemma {:induction false} ActionShape(e: Engine, op: Op, id: Id)
    requires e.Valid() && ActionsOf(e, op, id) != []
    ensures op.CheckOp?
    ensures var a := ActionsOf(e, op, id)[0];
            a.equipmentId == id && id in e.profiles && a.on == e.profiles[id].failSafeOn && a.observedAt == op.now
  {
  }

  /** A step that neither acts nor reports off leaves the episode waiting as it was. */
  lemma {:induction false} QuietStep(e: Engine, op: Op, id: Id)
    requires e.Valid() && Unattended(e.RuntimeOf(id)) && !ReportsOff(op, id) && ActionsOf(e, op, id) == []
    ensures Step(e, op).Valid() && Step(e, op).profiles == e.profiles
    ensures Unattended(Step(e, op).RuntimeOf(id))
    ensures Step(e, op).RuntimeOf(id).onSince == e.RuntimeOf(id).onSince
  {
    StepKeepsValid(e, op);
    StepKeepsEpisode(e, op, id);
  }

  /** A step at which the wait goes on: the checks that remain still cover the deadline. */
  lemma {:induction false} QuietPoll(e: Engine, ops: seq<Op>, id: Id, last: Time, gap: Duration, deadline: Time) returns (next: Time)
    requires e.Valid() && id in e.profiles && e.profiles[id].limits.maximumOn > 0
    requires Unattended(e.RuntimeOf(id)) && ops != [] && ActionsOf(e, ops[0], id) == []
    requires deadline == e.RuntimeOf(id).onSince + e.profiles[id].limits.maximumOn
    requires last <= deadline && Polled(CheckTimes(ops), last, gap, deadline)
    ensures next <= deadline && Polled(CheckTimes(ops[1..]), next, gap, deadline)
  {
    var op := ops[0];
    next := last;
    if op.CheckOp? {
      assert CheckTimes(ops) == [op.now] + CheckTimes(ops[1..]);
      if deadline <= op.now {
        CheckAtDeadlineActs(e, id, op.now);
        assert false;
      } else {
        PolledTail(op.now, CheckTimes(ops[1..]), last, gap, deadline);
        next := op.now;
      }
    } else {
      assert CheckTimes(ops) == CheckTimes(ops[1..]);
    }
  }

  lemma {:induction false} FirstActionInTime(
      e: Engine, ops: seq<Op>, id: Id, last: Time, gap: Duration, deadline: Time)
    requires e.Valid() && id in e.profiles && e.profiles[id].limits.maximumOn > 0
    requires Unattended(e.RuntimeOf(id)) && StaysOn(ops, id)
    requires deadline == e.RuntimeOf(id).onSince + e.profiles[id].limits.maximumOn
    requires last <= deadline && Polled(CheckTimes(ops), last, gap, deadline)
    ensures var actions := ActionsIn(e, ops, id);
            actions != [] && actions[0].observedAt <= deadline + gap && actions[0].on == e.profiles[id].failSafeOn
    decreases |ops|
  {
    if ActionsOf(e, ops[0], id) != [] {
      ActionShape(e, ops[0], id);
      assert CheckTimes(ops)[0] == ops[0].now;
    } else {
      QuietStep(e, ops[0], id);
      var next := QuietPoll(e, ops, id, last, gap, deadline);
      FirstActionInTime(Step(e, ops[0]), ops[1..], id, next, gap, deadline);
    }
  }

  lemma {:induction false} PolledTail(first: Time, polls: seq<Time>, start: Time, gap: Duration, end: Time)
    requires Polled([first] + polls, start, gap, end) && first < end
    ensures Polled(polls, first, gap, end)
  {
    var all := [first] + polls;
    assert all[1..] == polls;
    assert polls != [];
    assert all[1] == polls[0] && all[1] <= all[0] + gap;
    forall i | 0 < i < |polls|
      ensures polls[i] <= polls[i - 1] + gap
    {
      assert all[i + 1] <= all[i] + gap;
    }
  }

  /** Main result: equipment with a maximum-on limit that is reported on at `since` and not
      reported off gets exactly one safe-state action, at most one poll gap after the limit
      is reached, whatever else happens in between. */
  lemma {:induction false} SafeActionWithinLimit(e: Engine, ops: seq<Op>, id: Id, gap: Duration)
    requires e.Valid() && id in e.profiles && e.profiles[id].limits.maximumOn > 0
    requires Unattended(e.RuntimeOf(id)) && StaysOn(ops, id)
    requires var since := e.RuntimeOf(id).onSince;
             Polled(CheckTimes(ops), since, gap, since + e.profiles[id].limits.maximumOn)
    ensures var actions := ActionsIn(e, ops, id);
            && |actions| == 1
            && actions[0].observedAt <= e.RuntimeOf(id).onSince + e.profiles[id].limits.maximumOn + gap
            && actions[0].on == e.profiles[id].failSafeOn
  {
    var since := e.RuntimeOf(id).onSince;
    FirstActionInTime(e, ops, id, since, gap, since + e.profiles[id].limits.maximumOn);
    AtMostOneActionPerEpisode(e, ops, id);
    RunKeepsEpisode(e, ops, id);
  }

  /** An action on hazardous equipment turns it off, and the policy admits it in every
      engine that knows the equipment, whatever its mode, limits and sensors. */
  lemma {:induction false} HazardousActionIsOffAndAllowed(e: Engine, id: Id, now: Time, later: Engine, clock: Time, reader: Reader)
    requires e.Valid() && ActionFor(e, id, now).Some? && e.profiles[id].hazardous
    requires id in later.profiles
    ensures var action := ActionFor(e, id, now).value;
            && !action.on
            && Evaluate(later, Intent(action.equipmentId, action.on, action.observedAt), clock, reader).1 == Decided(ALLOW)
  {
    OffAlwaysAllowed(later, Intent(id, false, now), clock, reader);
  }

  // ---------- Expired overrides ----------

  /** Nothing in the run checks, reports the equipment off, or grants or revokes an override
      for it. */
  ghost predicate LeavesOverride(ops: seq<Op>, id: Id) {
    forall i :: 0 <= i < |ops| ==>
      && !ops[i].CheckOp? && !ReportsOff(ops[i], id)
      && !(ops[i].GrantOp? && ops[i].override.equipmentId == id) && !(ops[i].RevokeOp? && ops[i].revoked == id)
  }

  /** An evaluation of the equipment, dated at or after the expiry. */
  predicate Swallows(op: Op, id: Id, expiry: Time) {
    op.EvaluateOp? && op.intent.equipmentId == id && IssueTime(op.intent, op.clock) >= expiry
  }

  ghost predicate Swallowed(ops: seq<Op>, id: Id, expiry: Time) {
    exists i :: 0 <= i < |ops| && Swallows(ops[i], id, expiry)
  }

  /** What one such operation does to the override: it goes exactly if swallowed. */
  lemma {:induction false} StepLeavesOverride(e: Engine, op: Op, id: Id)
    requires e.Valid() && LeavesOverride([op], id)
    ensures id in e.overrides ==>
              if Swallows(op, id, e.overrides[id].expiresAt) then id !in Step(e, op).overrides
              else id in Step(e, op).overrides && Step(e, op).overrides[id] == e.overrides[id]
    ensures id !in e.overrides ==> id !in Step(e, op).overrides
  {
    assert [op][0] == op;
    if op.EvaluateOp? {
      EvaluateLeavesOverride(e, op.intent, op.clock, op.reader, id);
    }
  }

  lemma {:induction false} EvaluateLeavesOverride(e: Engine, intent: Intent, clock: Time, reader: Reader, id: Id)
    requires e.Valid()
    ensures var e' := Evaluate(e, intent, clock, reader).0;
            id in e'.overrides <==> id in e.overrides && !Swallows(EvaluateOp(intent, clock, reader), id, e.overrides[id].expiresAt)
    ensures var e' := Evaluate(e, intent, clock, reader).0;
            id in e'.overrides ==> e'.overrides[id] == e.overrides[id]
  {
  }

  lemma {:induction false} RunLeavesOverride(e: Engine, ops: seq<Op>, id: Id)
    requires e.Valid() && LeavesOverride(ops, id)
    ensures id in e.overrides ==>
              if Swallowed(ops, id, e.overrides[id].expiresAt) then id !in Run(e, ops).overrides
              else id in Run(e, ops).overrides && Run(e, ops).overrides[id] == e.overrides[id]
    ensures id !in e.overrides ==> id !in Run(e, ops).overrides
    decreases |ops|
  {
    if ops != [] {
      var rest := ops[1..];
      assert LeavesOverride([ops[0]], id) && LeavesOverride(rest, id);
      StepKeepsValid(e, ops[0]);
      StepLeavesOverride(e, ops[0], id);
      RunLeavesOverride(Step(e, ops[0]), rest, id);
      if id in e.overrides {
        SwallowedCons(ops, id, e.overrides[id].expiresAt);
      }
    }
  }

  lemma {:induction false} SwallowedCons(ops: seq<Op>, id: Id, expiry: Time)
    requires ops != []
    ensures Swallowed(ops, id, expiry) <==> Swallows(ops[0], id, expiry) || Swallowed(ops[1..], id, expiry)
  {
    if Swallowed(ops[1..], id, expiry) {
      var i :| 0 <= i < |ops[1..]| && Swallows(ops[1..][i], id, expiry);
      assert ops[i + 1] == ops[1..][i];
    }
    if Swallowed(ops, id, expiry) && !Swallows(ops[0], id, expiry) {
      var i :| 0 <= i < |ops| && Swallows(ops[i], id, expiry);
      assert ops[1..][i - 1] == ops[i];
    }
  }

  /** The episode goes on unattended through a run without checks and off-reports. */
  lemma {:induction false} RunLeavesUnattended(e: Engine, ops: seq<Op>, id: Id)
    requires e.Valid() && Unattended(e.RuntimeOf(id)) && LeavesOverride(ops, id)
    ensures Run(e, ops).Valid() && Run(e, ops).profiles == e.profiles && Unattended(Run(e, ops).RuntimeOf(id))
    decreases |ops|
  {
    if ops != [] {
      assert LeavesOverride(ops[1..], id);
      StepKeepsValid(e, ops[0]);
      StepKeepsEpisode(e, ops[0], id);
      RunLeavesUnattended(Step(e, ops[0]), ops[1..], id);
    }
  }

  /** Main result: an override that runs out while the equipment is on is meant to cause an
      action at the next check. After any run up to that check, it does exactly when no
      evaluation of the equipment in the run is dated at or after the expiry: such an
      evaluation takes the override out of the table, and with it the cause. */
  lemma {:induction false} OverrideExpiryActionIff(e: Engine, ops: seq<Op>, id: Id, now: Time)
    requires e.Valid() && id in e.overrides && e.overrides[id].expiresAt <= now
    requires Unattended(e.RuntimeOf(id)) && LeavesOverride(ops, id)
    ensures ActionFor(Run(e, ops), id, now) == Some(Action(id, e.profiles[id].failSafeOn, OverrideExpired, now))
            <==> !Swallowed(ops, id, e.overrides[id].expiresAt)
  {
    RunLeavesOverride(e, ops, id);
    RunLeavesUnattended(e, ops, id);
    DueActionIff(Run(e, ops), id, now);
  }

  /** At a check, on-equipment not yet acted on gets the expiry action exactly if an override
      of it is due. */
  lemma {:induction false} DueActionIff(e: Engine, id: Id, now: Time)
    requires e.Valid() && id in e.profiles && Unattended(e.RuntimeOf(id))
    ensures ActionFor(e, id, now) == Some(Action(id, e.profiles[id].failSafeOn, OverrideExpired, now))
            <==> OverrideDue(e, id, now)
  {
  }

  // ---------- Actions that go missing ----------

  /** Once a check has issued an action, no later one issues any for the same episode,
      whether or not the first was carried out. */
  lemma {:induction false} ActionIsNotRepeated(e: Engine, id: Id, now: Time, ops: seq<Op>)
    requires e.Valid() && ActionFor(e, id, now).Some? && StaysOn(ops, id)
    ensures ActionsIn(CheckWatchdogs(e, now), ops, id) == []
  {
    var e' := CheckWatchdogs(e, now);
    CheckKeepsValid(e, now);
    CheckSpendsEpisode(e, now, id);
    AtMostOneActionPerEpisode(e', ops, id);
    RunKeepsEpisode(e', ops, id);
  }
}
