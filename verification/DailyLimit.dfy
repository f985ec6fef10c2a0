/** The daily limit over whole runs, and which on-episodes have been acted on. */
module DailyLimit {
  import opened Domain
  import opened Safety
  import opened SafetyRuns
  import opened Accounting
  import opened Episodes
  import opened Grants
  import opened Verdicts
  import opened Watchdogs

  // ---------- Acted on ----------

  /** The check at `j` acted on the equipment. */
  ghost predicate ActedAt(e: Engine, ops: seq<Op>, id: Id, j: int) {
    0 <= j < |ops| && ops[j].CheckOp? && ActionFor(Run(e, ops[..j]), id, ops[j].now).Some?
  }

  /** The current episode has been acted on: a check did, with no off-report since. */
  ghost predicate ActedOn(e: Engine, ops: seq<Op>, id: Id) {
    exists j :: ActedAt(e, ops, id, j) && forall i :: j < i < |ops| ==> !ReportsOff(ops[i], id)
  }

  /** The engine's mark on an episode is that a check acted on it. */
  lemma {:induction false} MarkedIffActedOn(e: Engine, ops: seq<Op>, id: Id)
    requires New(e)
    ensures Run(e, ops).RuntimeOf(id).watchdogReason.Some? <==> ActedOn(e, ops, id)
    ensures Run(e, ops).RuntimeOf(id).watchdogReason.Some? ==> Run(e, ops).RuntimeOf(id).on
    decreases |ops|
  {
    if ops != [] {
      var n, before := |ops| - 1, ops[..|ops| - 1];
      MarkedIffActedOn(e, before, id);
      RunKeepsValid(e, before);
      RunSnoc(e, ops);
      StepMarks(Run(e, before), ops[n], id);
      ActedOnSnoc(e, ops, before, id);
    }
  }

  lemma {:induction false} StepMarks(e: Engine, op: Op, id: Id)
    requires e.Valid() && (e.RuntimeOf(id).watchdogReason.Some? ==> e.RuntimeOf(id).on)
    ensures var r, r' := e.RuntimeOf(id), Step(e, op).RuntimeOf(id);
            && (r'.watchdogReason.Some? <==>
                  || (op.CheckOp? && ActionFor(e, id, op.now).Some?)
                  || (r.watchdogReason.Some? && (ReportsOff(op, id) ==> id !in e.profiles)))
            && (r'.watchdogReason.Some? ==> r'.on)
  {
    if op.CheckOp? {
      CheckSpendsEpisode(e, op.now, id);
    } else {
      StepRuntime(e, op, id);
      OtherMarks(e, op, id);
    }
  }

  lemma {:induction false} OtherMarks(e: Engine, op: Op, id: Id)
    requires !op.CheckOp? && (e.RuntimeOf(id).watchdogReason.Some? ==> e.RuntimeOf(id).on)
    ensures var r, r' := e.RuntimeOf(id), RuntimeAfter(e, op, id);
            && (r'.watchdogReason.Some? <==> r.watchdogReason.Some? && (ReportsOff(op, id) ==> id !in e.profiles))
            && (r'.watchdogReason.Some? ==> r'.on)
  {
  }

  lemma {:induction false} ActedAtPrefix(e: Engine, ops: seq<Op>, before: seq<Op>, id: Id, j: int)
    requires ops != [] && before == ops[..|ops| - 1] && j < |before|
    ensures ActedAt(e, ops, id, j) <==> ActedAt(e, before, id, j)
  {
    if 0 <= j {
      assert ops[..j] == before[..j];
    }
  }

  lemma {:induction false} ActedOnSnoc(e: Engine, ops: seq<Op>, before: seq<Op>, id: Id)
    requires ops != [] && before == ops[..|ops| - 1]
    ensures ActedOn(e, ops, id) <==>
            || ActedAt(e, ops, id, |ops| - 1)
            || (ActedOn(e, before, id) && !ReportsOff(ops[|ops| - 1], id))
  {
    if ActedOn(e, before, id) && !ReportsOff(ops[|ops| - 1], id) {
      ActedOnGrows(e, ops, before, id);
    }
    if ActedOn(e, ops, id) && !ActedAt(e, ops, id, |ops| - 1) {
      ActedOnShrinks(e, ops, before, id);
    }
  }

  lemma {:induction false} ActedOnGrows(e: Engine, ops: seq<Op>, before: seq<Op>, id: Id)
    requires ops != [] && before == ops[..|ops| - 1] && ActedOn(e, before, id) && !ReportsOff(ops[|ops| - 1], id)
    ensures ActedOn(e, ops, id)
  {
    var j :| ActedAt(e, before, id, j) && forall i :: j < i < |before| ==> !ReportsOff(before[i], id);
    ActedAtPrefix(e, ops, before, id, j);
    forall i | j < i < |ops| ensures !ReportsOff(ops[i], id) {
      assert i < |before| ==> before[i] == ops[i];
    }
  }

  lemma {:induction false} ActedOnShrinks(e: Engine, ops: seq<Op>, before: seq<Op>, id: Id)
    requires ops != [] && before == ops[..|ops| - 1] && ActedOn(e, ops, id) && !ActedAt(e, ops, id, |ops| - 1)
    ensures ActedOn(e, before, id) && !ReportsOff(ops[|ops| - 1], id)
  {
    var j :| ActedAt(e, ops, id, j) && forall i :: j < i < |ops| ==> !ReportsOff(ops[i], id);
    ActedAtPrefix(e, ops, before, id, j);
    forall i | j < i < |before| ensures !ReportsOff(before[i], id) {
      assert before[i] == ops[i];
    }
  }

  /** Main result: from a new engine, after any run, a check acts on equipment exactly when its
      reports have it on, no check has acted on the episode yet, and an override of it has run
      out, its time on has reached the limit, or its reported on-time of the day has; the
      reason is the first of these, and the action is its fail-safe state. */
  lemma {:induction false} CheckActsExactlyWhen(e: Engine, ops: seq<Op>, id: Id, now: Time, reason: Reason)
    requires New(e) && id in e.profiles && Ordered(CallsUpTo(e, ops, id, now))
    ensures ActionFor(Run(e, ops), id, now) == Some(Action(id, e.profiles[id].failSafeOn, reason, now))
            <==> OnNow(CallsUpTo(e, ops, id, now)) && !ActedOn(e, ops, id) && Causes(e, ops, id, now, reason)
    ensures ActionFor(Run(e, ops), id, now).Some? ==>
              exists why :: ActionFor(Run(e, ops), id, now) == Some(Action(id, e.profiles[id].failSafeOn, why, now))
  {
    MarkedIffActedOn(e, ops, id);
    UnattendedActsExactlyWhen(e, ops, id, now, reason);
  }

  // ---------- In time ----------

  /** The calls that a run makes for the equipment go on from `last`, in order, within one day. */
  ghost predicate WithinDay(e: Engine, ops: seq<Op>, id: Id, last: Time, day: int)
    decreases |ops|
  {
    ops == [] ||
    match CallOf(e, ops[0], id)
    case None => WithinDay(e, ops[1..], id, last, day)
    case Some(call) => call.at != 0 && last <= call.at && UtcDay(call.at) == day && WithinDay(e, ops[1..], id, call.at, day)
  }

  lemma {:induction false} WithinDaySameProfiles(e: Engine, e': Engine, ops: seq<Op>, id: Id, last: Time, day: int)
    requires e.profiles == e'.profiles && WithinDay(e, ops, id, last, day)
    ensures WithinDay(e', ops, id, last, day)
    decreases |ops|
  {
    if ops != [] {
      CallOfSameProfiles(e, e', ops[0], id);
      var call := CallOf(e, ops[0], id);
      WithinDaySameProfiles(e, e', ops[1..], id, if call.Some? then call.value.at else last, day);
    }
  }

  /** The instant from which on-time would have to run without a break to give today's. */
  function Since(r: Runtime): Time {
    r.lastAccounted - r.dailyOn
  }

  predicate Counting(r: Runtime, last: Time, day: int) {
    r.on && r.dailyDate == Some(day) && r.lastAccounted == last && last != 0
  }

  lemma {:induction false} CallKeepsCounting(r: Runtime, call: Call, last: Time, day: int)
    requires Counting(r, last, day) && call.at != 0 && last <= call.at && UtcDay(call.at) == day
    requires call.report != Some(false)
    ensures Counting(Apply(r, call), call.at, day) && Since(Apply(r, call)) == Since(r)
  {
  }

  lemma {:induction false} StepKeepsCounting(e: Engine, op: Op, id: Id, last: Time, day: int)
    requires e.Valid() && Counting(e.RuntimeOf(id), last, day) && !ReportsOff(op, id) && WithinDay(e, [op], id, last, day)
    ensures var r, r', call := e.RuntimeOf(id), Step(e, op).RuntimeOf(id), CallOf(e, op, id);
            && Counting(r', if call.Some? then call.value.at else last, day) && Since(r') == Since(r)
  {
    StepIsCall(e, op, id);
    var call := CallOf(e, op, id);
    if call.Some? {
      CallKeepsCounting(e.RuntimeOf(id), call.value, last, day);
    }
  }

  /** A check once the day's on-time has reached the limit acts. */
  lemma {:induction false} CheckAtDailyLimitActs(e: Engine, id: Id, now: Time, last: Time, day: int)
    requires id in e.profiles && e.profiles[id].limits.maximumDailyOn > 0 && Unattended(e.RuntimeOf(id))
    requires Counting(e.RuntimeOf(id), last, day) && now != 0 && last <= now && UtcDay(now) == day
    requires Since(e.RuntimeOf(id)) + e.profiles[id].limits.maximumDailyOn <= now
    ensures ActionFor(e, id, now).Some?
  {
    CallKeepsCounting(e.RuntimeOf(id), Call(now, None), last, day);
  }

  /** A step at which the wait goes on: the checks that remain still cover the deadline. */
  lemma {:induction false} StillPolled(ops: seq<Op>, last: Time, gap: Duration, deadline: Time) returns (next: Time)
    requires ops != [] && last <= deadline && Polled(CheckTimes(ops), last, gap, deadline)
    requires ops[0].CheckOp? ==> ops[0].now < deadline
    ensures next <= deadline && Polled(CheckTimes(ops[1..]), next, gap, deadline)
  {
    next := last;
    if ops[0].CheckOp? {
      assert CheckTimes(ops) == [ops[0].now] + CheckTimes(ops[1..]);
      PolledTail(ops[0].now, CheckTimes(ops[1..]), last, gap, deadline);
      next := ops[0].now;
    } else {
      assert CheckTimes(ops) == CheckTimes(ops[1..]);
    }
  }

  /** Equipment counting towards its daily limit, due at `deadline`, with checks to come. */
  ghost predicate Waits(e: Engine, ops: seq<Op>, id: Id, polled: Time, gap: Duration, last: Time, day: int, deadline: Time) {
    && e.Valid() && id in e.profiles && e.profiles[id].limits.maximumDailyOn > 0
    && Unattended(e.RuntimeOf(id)) && Counting(e.RuntimeOf(id), last, day)
    && StaysOn(ops, id) && WithinDay(e, ops, id, last, day)
    && deadline == Since(e.RuntimeOf(id)) + e.profiles[id].limits.maximumDailyOn
    && polled <= deadline && Polled(CheckTimes(ops), polled, gap, deadline)
  }

  lemma {:induction false} FirstDailyAction(
      e: Engine, ops: seq<Op>, id: Id, polled: Time, gap: Duration, last: Time, day: int, deadline: Time)
    requires Waits(e, ops, id, polled, gap, last, day, deadline)
    ensures var actions := ActionsIn(e, ops, id);
            actions != [] && actions[0].observedAt <= deadline + gap && actions[0].on == e.profiles[id].failSafeOn
    decreases |ops|
  {
    if ActionsOf(e, ops[0], id) != [] {
      ActionShape(e, ops[0], id);
      assert CheckTimes(ops)[0] == ops[0].now;
    } else {
      var next, at := WaitsOn(e, ops, id, polled, gap, last, day, deadline);
      FirstDailyAction(Step(e, ops[0]), ops[1..], id, next, gap, at, day, deadline);
    }
  }

  lemma {:induction false} WaitsOn(
      e: Engine, ops: seq<Op>, id: Id, polled: Time, gap: Duration, last: Time, day: int, deadline: Time)
    returns (next: Time, at: Time)
    requires Waits(e, ops, id, polled, gap, last, day, deadline) && ops != [] && ActionsOf(e, ops[0], id) == []
    ensures Waits(Step(e, ops[0]), ops[1..], id, next, gap, at, day, deadline) && Step(e, ops[0]).profiles == e.profiles
  {
    QuietMeansBefore(e, ops, id, last, day);
    next := StillPolled(ops, polled, gap, deadline);
    at := QuietDay(e, ops, id, last, day);
  }

  /** A check that does not act is before the day's limit is reached. */
  lemma {:induction false} QuietMeansBefore(e: Engine, ops: seq<Op>, id: Id, last: Time, day: int)
    requires id in e.profiles && e.profiles[id].limits.maximumDailyOn > 0 && Unattended(e.RuntimeOf(id))
    requires Counting(e.RuntimeOf(id), last, day) && ops != [] && WithinDay(e, ops, id, last, day)
    requires ActionsOf(e, ops[0], id) == []
    ensures ops[0].CheckOp? ==> ops[0].now < Since(e.RuntimeOf(id)) + e.profiles[id].limits.maximumDailyOn
  {
    if ops[0].CheckOp? && Since(e.RuntimeOf(id)) + e.profiles[id].limits.maximumDailyOn <= ops[0].now {
      CheckAtDailyLimitActs(e, id, ops[0].now, last, day);
      assert false;
    }
  }

  /** What a step without an action leaves for the rest of the day. */
  lemma {:induction false} QuietDay(e: Engine, ops: seq<Op>, id: Id, last: Time, day: int) returns (at: Time)
    requires e.Valid() && Unattended(e.RuntimeOf(id)) && Counting(e.RuntimeOf(id), last, day)
    requires ops != [] && StaysOn(ops, id) && WithinDay(e, ops, id, last, day) && ActionsOf(e, ops[0], id) == []
    ensures var e' := Step(e, ops[0]);
            && e'.Valid() && e'.profiles == e.profiles && Unattended(e'.RuntimeOf(id))
            && Counting(e'.RuntimeOf(id), at, day) && Since(e'.RuntimeOf(id)) == Since(e.RuntimeOf(id))
            && WithinDay(e', ops[1..], id, at, day)
  {
    var call := CallOf(e, ops[0], id);
    at := if call.Some? then call.value.at else last;
    HeadWithinDay(e, ops, id, last, day);
    QuietStep(e, ops[0], id);
    StepKeepsCounting(e, ops[0], id, last, day);
    WithinDaySameProfiles(e, Step(e, ops[0]), ops[1..], id, at, day);
  }

  lemma {:induction false} HeadWithinDay(e: Engine, ops: seq<Op>, id: Id, last: Time, day: int)
    requires ops != [] && WithinDay(e, ops, id, last, day)
    ensures WithinDay(e, [ops[0]], id, last, day)
  {
    assert [ops[0]][1..] == [];
  }

  /** Main result: equipment with a daily limit that is on, not yet acted on and not reported
      off, and whose reports of the day add up to less than the limit, gets exactly one
      safe-state action during the day, at most one poll gap after the reported on-time has
      reached the limit, whatever else happens in between. */
  lemma {:induction false} DailyActionWithinLimit(e: Engine, before: seq<Op>, ops: seq<Op>, id: Id, gap: Duration)
    requires New(e) && id in e.profiles && e.profiles[id].limits.maximumDailyOn > 0
    requires var calls := CallsOf(e, before, id);
             && calls != [] && Ordered(calls) && OnNow(calls) && !ActedOn(e, before, id)
             && OnToday(calls) <= e.profiles[id].limits.maximumDailyOn
             && var last := calls[|calls| - 1].at;
                && WithinDay(e, ops, id, last, UtcDay(last))
                && Polled(CheckTimes(ops), last, gap, last + e.profiles[id].limits.maximumDailyOn - OnToday(calls))
    requires StaysOn(ops, id)
    ensures var calls, actions := CallsOf(e, before, id), ActionsIn(Run(e, before), ops, id);
            && |actions| == 1 && actions[0].on == e.profiles[id].failSafeOn
            && actions[0].observedAt
               <= calls[|calls| - 1].at + e.profiles[id].limits.maximumDailyOn - OnToday(calls) + gap
  {
    var calls, s := CallsOf(e, before, id), Run(e, before);
    var last := calls[|calls| - 1].at;
    CountingAfter(e, before, id);
    WithinDaySameProfiles(e, s, ops, id, last, UtcDay(last));
    FirstDailyAction(
      s, ops, id, last, gap, last, UtcDay(last), last + e.profiles[id].limits.maximumDailyOn - OnToday(calls));
    AtMostOneActionPerEpisode(s, ops, id);
    RunKeepsEpisode(s, ops, id);
  }

  lemma {:induction false} CountingAfter(e: Engine, before: seq<Op>, id: Id)
    requires New(e) && CallsOf(e, before, id) != [] && Ordered(CallsOf(e, before, id))
    requires OnNow(CallsOf(e, before, id)) && !ActedOn(e, before, id)
    ensures var calls, s := CallsOf(e, before, id), Run(e, before);
            var last := calls[|calls| - 1].at;
            && s.Valid() && s.profiles == e.profiles && Unattended(s.RuntimeOf(id))
            && Counting(s.RuntimeOf(id), last, UtcDay(last)) && Since(s.RuntimeOf(id)) == last - OnToday(calls)
  {
    var calls := CallsOf(e, before, id);
    RunKeepsValid(e, before);
    MarkedIffActedOn(e, before, id);
    RuntimeIsOwnReplay(e, before, id);
    ReplayCounts(calls);
  }

  lemma {:induction false} ReplayCounts(calls: seq<Call>)
    requires calls != [] && Ordered(calls) && OnNow(calls)
    ensures var last := calls[|calls| - 1].at;
            Counting(Replay(calls), last, UtcDay(last)) && Since(Replay(calls)) == last - OnToday(calls)
  {
    ReplayIsOn(calls);
    DailyOnIsReportedOnTime(calls);
    ReplayShape(calls);
  }
}
