/** Whole runs of the safety engine: any mix of evaluations, reports, watchdog checks, mode
    changes and overrides, over any number of equipment. */
module SafetyRuns {
  import opened Domain
  import opened Safety
  import opened Accounting
  import Profile

  /** One call on the engine, with the clock reading and the state reads it meets. */
  datatype Op =
    | EvaluateOp(intent: Intent, clock: Time, reader: Reader)
    | ReportOp(id: Id, on: bool, at: Time)
    | CheckOp(now: Time)
    | SetModeOp(mode: Mode)
    | GrantOp(override: Override, grantClock: Time)
    | RevokeOp(revoked: Id)

  function Step(e: Engine, op: Op): Engine {
    match op
    case EvaluateOp(intent, clock, reader) => Evaluate(e, intent, clock, reader).0
    case ReportOp(id, on, at) => RecordReported(e, id, on, at).0
    case CheckOp(now) => CheckWatchdogs(e, now)
    case SetModeOp(mode) => SetMode(e, mode)
    case GrantOp(override, clock) => GrantOverride(e, override, clock)
    case RevokeOp(id) => RevokeOverride(e, id)
  }

  function Run(e: Engine, ops: seq<Op>): Engine
    decreases |ops|
  {
    if ops == [] then e else Run(Step(e, ops[0]), ops[1..])
  }

  lemma {:induction false} StepKeepsValid(e: Engine, op: Op)
    requires e.Valid()
    ensures Step(e, op).Valid() && Step(e, op).profiles == e.profiles
  {
    match op
    case EvaluateOp(intent, clock, reader) => EvaluateKeepsValid(e, intent, clock, reader);
    case ReportOp(id, on, at) => ReportKeepsValid(e, id, on, at);
    case CheckOp(now) => CheckKeepsValid(e, now);
    case SetModeOp(_) =>
    case GrantOp(override, clock) => GrantKeepsValid(e, override, clock);
    case RevokeOp(id) => RevokeKeepsValid(e, id);
  }

  lemma {:induction false} EvaluateKeepsValid(e: Engine, intent: Intent, clock: Time, reader: Reader)
    requires e.Valid()
    ensures var e' := Evaluate(e, intent, clock, reader).0; e'.Valid() && e'.profiles == e.profiles
  {
  }

  lemma {:induction false} ReportKeepsValid(e: Engine, id: Id, on: bool, at: Time)
    requires e.Valid()
    ensures var e' := RecordReported(e, id, on, at).0; e'.Valid() && e'.profiles == e.profiles
  {
  }

  lemma {:induction false} CheckKeepsValid(e: Engine, now: Time)
    requires e.Valid()
    ensures var e' := CheckWatchdogs(e, now); e'.Valid() && e'.profiles == e.profiles
  {
  }

  lemma {:induction false} GrantKeepsValid(e: Engine, o: Override, clock: Time)
    requires e.Valid()
    ensures var e' := GrantOverride(e, o, clock); e'.Valid() && e'.profiles == e.profiles
  {
  }

  lemma {:induction false} RevokeKeepsValid(e: Engine, id: Id)
    requires e.Valid()
    ensures var e' := RevokeOverride(e, id); e'.Valid() && e'.profiles == e.profiles
  {
  }

  lemma {:induction false} RunKeepsValid(e: Engine, ops: seq<Op>)
    requires e.Valid()
    ensures Run(e, ops).Valid() && Run(e, ops).profiles == e.profiles
    decreases |ops|
  {
    if ops != [] {
      StepKeepsValid(e, ops[0]);
      RunKeepsValid(Step(e, ops[0]), ops[1..]);
    }
  }

  // ---------- Daily on-time over runs ----------

  /** The accounting call that an operation makes for one equipment, if any. */
  function CallOf(e: Engine, op: Op, id: Id): Option<Call> {
    match op
    case EvaluateOp(intent, clock, _) =>
      if intent.equipmentId == id && id in e.profiles then Some(Call(IssueTime(intent, clock), None)) else None
    case ReportOp(other, on, at) =>
      if other == id && id in e.profiles && at != 0 then Some(Call(at, Some(on))) else None
    case CheckOp(now) => if id in e.profiles then Some(Call(now, None)) else None
    case _ => None
  }

  function CallsOf(e: Engine, ops: seq<Op>, id: Id): seq<Call> {
    if ops == [] then []
    else
      var last := CallOf(e, ops[|ops| - 1], id);
      CallsOf(e, ops[..|ops| - 1], id) + (if last.Some? then [last.value] else [])
  }

  /** A runtime without its watchdog mark. */
  function Unmarked(r: Runtime): Runtime {
    r.(watchdogReason := None)
  }

  /** The runtime an operation leaves behind for one equipment. */
  function RuntimeAfter(e: Engine, op: Op, id: Id): Runtime {
    match CallOf(e, op, id)
    case None => e.RuntimeOf(id)
    case Some(call) => if op.CheckOp? then CheckFor(e, id, op.now).0 else Apply(e.RuntimeOf(id), call)
  }

  lemma {:induction false} StepRuntime(e: Engine, op: Op, id: Id)
    requires e.Valid()
    ensures Step(e, op).RuntimeOf(id) == RuntimeAfter(e, op, id)
  {
    match op
    case CheckOp(now) => CheckRuntime(e, now, id);
    case EvaluateOp(intent, clock, reader) => EvaluateRuntime(e, intent, clock, reader, id);
    case ReportOp(other, on, at) => ReportRuntime(e, other, on, at, id);
    case _ =>
  }

  lemma {:induction false} ReportRuntime(e: Engine, other: Id, on: bool, at: Time, id: Id)
    ensures RecordReported(e, other, on, at).0.RuntimeOf(id)
         == if id == other && id in e.profiles && at != 0 then Record(e.RuntimeOf(id), on, at) else e.RuntimeOf(id)
  {
  }

  lemma {:induction false} EvaluateRuntime(e: Engine, intent: Intent, clock: Time, reader: Reader, id: Id)
    ensures Evaluate(e, intent, clock, reader).0.RuntimeOf(id)
         == if id == intent.equipmentId && id in e.profiles then Account(e.RuntimeOf(id), IssueTime(intent, clock))
            else e.RuntimeOf(id)
  {
  }

  lemma {:induction false} CheckRuntime(e: Engine, now: Time, id: Id)
    requires e.Valid()
    ensures CheckWatchdogs(e, now).RuntimeOf(id) == if id in e.profiles then CheckFor(e, id, now).0 else e.RuntimeOf(id)
  {
  }

  /** A call that does not report off keeps an episode going, with its start and its mark. */
  lemma {:induction false} ApplyKeepsEpisode(r: Runtime, call: Call)
    requires r.on && call.report != Some(false)
    ensures var r' := Apply(r, call); r'.on && r'.onSince == r.onSince && r'.watchdogReason == r.watchdogReason
  {
  }

  lemma {:induction false} CheckKeepsEpisode(p: Profile.Profile, due: bool, r: Runtime, now: Time)
    ensures var (r', action) := CheckOne(p, due, r, now);
            && r'.on == r.on && r'.onSince == r.onSince
            && (if action.Some? then r.on && r.watchdogReason.None? && r'.watchdogReason.Some?
                else r'.watchdogReason == r.watchdogReason)
  {
  }

  lemma {:induction false} StepIsCall(e: Engine, op: Op, id: Id)
    requires e.Valid()
    ensures var r, r' := e.RuntimeOf(id), Step(e, op).RuntimeOf(id);
            match CallOf(e, op, id)
            case None => r' == r
            case Some(call) => Unmarked(r') == Unmarked(Apply(r, call))
  {
    StepRuntime(e, op, id);
  }

  lemma {:induction false} ApplyIgnoresMark(r: Runtime, call: Call)
    ensures Unmarked(Apply(Unmarked(r), call)) == Unmarked(Apply(r, call))
  {
  }

  lemma {:induction false} RunSnoc(e: Engine, ops: seq<Op>)
    requires ops != []
    ensures Run(e, ops) == Step(Run(e, ops[..|ops| - 1]), ops[|ops| - 1])
    decreases |ops|
  {
    if |ops| > 1 {
      RunSnoc(Step(e, ops[0]), ops[1..]);
      assert ops[1..][..|ops| - 2] == ops[..|ops| - 1][1..];
    }
  }

  lemma {:induction false} CallsOfSnoc(e: Engine, ops: seq<Op>, id: Id)
    requires ops != []
    ensures var calls := CallsOf(e, ops[..|ops| - 1], id);
            match CallOf(e, ops[|ops| - 1], id)
            case None => CallsOf(e, ops, id) == calls
            case Some(call) =>
              && CallsOf(e, ops, id) == calls + [call]
              && Replay(calls + [call]) == Apply(Replay(calls), call)
  {
    var calls := CallsOf(e, ops[..|ops| - 1], id);
    var call := CallOf(e, ops[|ops| - 1], id);
    if call.Some? {
      assert (calls + [call.value])[..|calls|] == calls;
    }
  }

  lemma {:induction false} CallOfSameProfiles(e: Engine, e': Engine, op: Op, id: Id)
    requires e.profiles == e'.profiles
    ensures CallOf(e, op, id) == CallOf(e', op, id)
  {
  }

  lemma {:induction false} ApplyAgrees(r: Runtime, q: Runtime, call: Call)
    requires Unmarked(r) == Unmarked(q)
    ensures Unmarked(Apply(r, call)) == Unmarked(Apply(q, call))
  {
    ApplyIgnoresMark(r, call);
    ApplyIgnoresMark(q, call);
  }

  /** The equipment of an engine do not interfere: each runtime is the replay of that
      equipment's own calls, watchdog mark apart. */
  lemma {:induction false} RuntimeIsOwnReplay(e: Engine, ops: seq<Op>, id: Id)
    requires e.Valid() && e.runtime == map[]
    ensures Unmarked(Run(e, ops).RuntimeOf(id)) == Unmarked(Replay(CallsOf(e, ops, id)))
    decreases |ops|
  {
    if ops != [] {
      var before, op := ops[..|ops| - 1], ops[|ops| - 1];
      RuntimeIsOwnReplay(e, before, id);
      RunSnoc(e, ops);
      RunKeepsValid(e, before);
      CallsOfSnoc(e, ops, id);
      CallOfSameProfiles(e, Run(e, before), op, id);
      StepIsCall(Run(e, before), op, id);
      var call := CallOf(e, op, id);
      if call.Some? {
        ApplyAgrees(Run(e, before).RuntimeOf(id), Replay(CallsOf(e, before, id)), call.value);
      }
    }
  }

  /** Main result: in every run whose calls for an equipment carry set, non-decreasing
      times, its `dailyOn` is the reported on-time of the current UTC day since that day's
      first call, below 24 hours. */
  lemma {:induction false} DailyOnOverRuns(e: Engine, ops: seq<Op>, id: Id)
    requires e.Valid() && e.runtime == map[]
    requires var calls := CallsOf(e, ops, id); calls != [] && Ordered(calls)
    ensures var calls := CallsOf(e, ops, id);
            var dailyOn := Run(e, ops).RuntimeOf(id).dailyOn;
            && dailyOn == OnTime(calls, DayOpened(calls), calls[|calls| - 1].at)
            && 0 <= dailyOn < DAY
  {
    RuntimeIsOwnReplay(e, ops, id);
    DailyOnIsReportedOnTime(CallsOf(e, ops, id));
  }

  lemma {:induction false} CallsOfConcat(e: Engine, ops: seq<Op>, more: seq<Op>, id: Id)
    ensures CallsOf(e, ops + more, id) == CallsOf(e, ops, id) + CallsOf(e, more, id)
    decreases |more|
  {
    if more == [] {
      assert ops + more == ops;
    } else {
      assert (ops + more)[..|ops + more| - 1] == ops + more[..|more| - 1];
      CallsOfConcat(e, ops, more[..|more| - 1], id);
    }
  }

  /** Main result: an extra evaluation or watchdog check, at an intermediate time of a day
      that is already open for the equipment, changes no later `dailyOn`. */
  lemma {:induction false} ExtraOpChangesNoDailyOn(e: Engine, before: seq<Op>, extra: Op, after: seq<Op>, id: Id)
    requires e.Valid() && e.runtime == map[]
    requires extra.EvaluateOp? || extra.CheckOp?
    requires CallsOf(e, before, id) != [] && CallsOf(e, after, id) != []
    requires Ordered(CallsOf(e, before + [extra] + after, id))
    requires var calls := CallsOf(e, before, id);
             match CallOf(e, extra, id)
             case None => true
             case Some(call) => UtcDay(call.at) == UtcDay(calls[|calls| - 1].at)
    ensures Run(e, before + [extra] + after).RuntimeOf(id).dailyOn == Run(e, before + after).RuntimeOf(id).dailyOn
  {
    RuntimeIsOwnReplay(e, before + [extra] + after, id);
    RuntimeIsOwnReplay(e, before + after, id);
    CallsWithExtra(e, before, extra, after, id);
    ExtraCallsAgree(CallsOf(e, before, id), CallOf(e, extra, id), CallsOf(e, after, id));
  }

  lemma {:induction false} ExtraCallsAgree(before: seq<Call>, extra: Option<Call>, after: seq<Call>)
    requires before != [] && after != []
    requires extra.Some? ==> extra.value.report.None? && UtcDay(extra.value.at) == UtcDay(before[|before| - 1].at)
    requires extra.Some? ==> Ordered(before + [extra.value] + after)
    ensures Replay(match extra case None => before + after case Some(call) => before + [call] + after)
         == Replay(before + after)
  {
    if extra.Some? {
      ExtraCallChangesNothing(before, extra.value, after);
    }
  }

  lemma {:induction false} CallsWithExtra(e: Engine, before: seq<Op>, extra: Op, after: seq<Op>, id: Id)
    ensures CallsOf(e, before + after, id) == CallsOf(e, before, id) + CallsOf(e, after, id)
    ensures CallsOf(e, before + [extra] + after, id)
         == match CallOf(e, extra, id)
            case None => CallsOf(e, before, id) + CallsOf(e, after, id)
            case Some(call) => CallsOf(e, before, id) + [call] + CallsOf(e, after, id)
  {
    CallsOfConcat(e, before, after, id);
    CallsOfConcat(e, before + [extra], after, id);
    CallsOfSnoc(e, before + [extra], id);
    assert (before + [extra])[..|before|] == before;
  }

  // ---------- No mode and no override lifts a hard limit ----------

  /** The hard-limit verdict inside an evaluation, if there is one. */
  function HardVerdict(evaluation: Evaluation): Option<Reason> {
    if evaluation.Decided? && !evaluation.decision.allowed && evaluation.decision.hardLimit
    then Some(evaluation.decision.reason) else None
  }

  /** The hard-limit verdicts of a run's evaluations, in order. */
  function HardVerdicts(e: Engine, ops: seq<Op>): seq<Option<Reason>>
    decreases |ops|
  {
    if ops == [] then []
    else
      (if ops[0].EvaluateOp?
       then [HardVerdict(Evaluate(e, ops[0].intent, ops[0].clock, ops[0].reader).1)]
       else [])
      + HardVerdicts(Step(e, ops[0]), ops[1..])
  }

  function PlainMode(mode: Mode): Mode {
    if mode == EmergencyStop || mode == UnknownMode then mode else Normal
  }

  /** The engines differ at most in overrides, watchdog marks, and in which of normal,
      maintenance and manual they are in. */
  ghost predicate Alike(e: Engine, p: Engine) {
    && e.profiles == p.profiles
    && PlainMode(e.mode) == PlainMode(p.mode)
    && forall id :: Unmarked(e.RuntimeOf(id)) == Unmarked(p.RuntimeOf(id))
  }

  function PlainOp(op: Op): Op {
    if op.SetModeOp? then SetModeOp(PlainMode(op.mode)) else op
  }

  /** A run with maintenance and manual replaced by normal, and without override operations. */
  function PlainOps(ops: seq<Op>): seq<Op> {
    if ops == [] then []
    else if ops[0].GrantOp? || ops[0].RevokeOp? then PlainOps(ops[1..])
    else [PlainOp(ops[0])] + PlainOps(ops[1..])
  }

  lemma {:induction false} JudgeIsPlain(
      m: Mode, n: Mode, p: Profile.Profile, r: Runtime, q: Runtime, o: Option<Override>, u: Option<Override>,
      on: bool, now: Time, reader: Reader)
    requires PlainMode(m) == PlainMode(n) && Unmarked(r) == Unmarked(q)
    ensures HardVerdict(Judge(m, p, r, o, on, now, reader)) == HardVerdict(Judge(n, p, q, u, on, now, reader))
  {
    assert LimitFault(m, p, r, now) == LimitFault(n, p, q, now);
  }

  /** For any two engines that differ only in overrides and in mode among normal,
      maintenance and manual, an intent is denied with a hard limit in one exactly when it
      is in the other, for the same reason. */
  lemma {:induction false} EvaluateIsPlain(e: Engine, p: Engine, intent: Intent, clock: Time, reader: Reader)
    requires Alike(e, p)
    ensures HardVerdict(Evaluate(e, intent, clock, reader).1) == HardVerdict(Evaluate(p, intent, clock, reader).1)
  {
    var id, now := intent.equipmentId, IssueTime(intent, clock);
    if id in e.profiles {
      var r, q := e.RuntimeOf(id), p.RuntimeOf(id);
      ApplyAgrees(r, q, Call(now, None));
      JudgeIsPlain(e.mode, p.mode, e.profiles[id], Account(r, now), Account(q, now),
                   OverrideAt(e, id, now), OverrideAt(p, id, now), intent.on, now, reader);
    }
  }

  lemma {:induction false} StepStaysAlike(e: Engine, p: Engine, op: Op)
    requires e.Valid() && p.Valid() && Alike(e, p)
    ensures if op.GrantOp? || op.RevokeOp? then Alike(Step(e, op), p) else Alike(Step(e, op), Step(p, PlainOp(op)))
  {
    var p' := if op.GrantOp? || op.RevokeOp? then p else Step(p, PlainOp(op));
    StepKeepsValid(e, op);
    StepKeepsValid(p, PlainOp(op));
    ModeStaysAlike(e, p, op);
    forall id
      ensures Unmarked(Step(e, op).RuntimeOf(id)) == Unmarked(p'.RuntimeOf(id))
    {
      RuntimeStaysAlike(e, p, op, id);
    }
  }

  lemma {:induction false} ModeStaysAlike(e: Engine, p: Engine, op: Op)
    requires PlainMode(e.mode) == PlainMode(p.mode)
    ensures PlainMode(Step(e, op).mode) == PlainMode(if op.GrantOp? || op.RevokeOp? then p.mode else Step(p, PlainOp(op)).mode)
  {
  }

  lemma {:induction false} RuntimeStaysAlike(e: Engine, p: Engine, op: Op, id: Id)
    requires e.Valid() && p.Valid() && e.profiles == p.profiles && Unmarked(e.RuntimeOf(id)) == Unmarked(p.RuntimeOf(id))
    ensures Unmarked(Step(e, op).RuntimeOf(id))
         == Unmarked(if op.GrantOp? || op.RevokeOp? then p.RuntimeOf(id) else Step(p, PlainOp(op)).RuntimeOf(id))
  {
    StepIsCall(e, op, id);
    StepIsCall(p, PlainOp(op), id);
    CallOfSameProfiles(e, p, op, id);
    assert CallOf(p, PlainOp(op), id) == CallOf(p, op, id);
    var call := CallOf(e, op, id);
    if call.Some? {
      ApplyAgrees(e.RuntimeOf(id), p.RuntimeOf(id), call.value);
    }
  }

  /** Main result: the hard-limit verdicts of any run, with their reasons, are those of the
      same run with maintenance and manual mode replaced by normal and every override
      operation removed. So two runs that differ only in those have the same verdicts. */
  lemma {:induction false} HardLimitsIgnorePolicy(e: Engine, p: Engine, ops: seq<Op>)
    requires e.Valid() && p.Valid() && Alike(e, p)
    ensures HardVerdicts(e, ops) == HardVerdicts(p, PlainOps(ops))
    decreases |ops|
  {
    if ops != [] {
      var op, rest := ops[0], PlainOps(ops[1..]);
      StepStaysAlike(e, p, op);
      StepKeepsValid(e, op);
      if op.GrantOp? || op.RevokeOp? {
        HardLimitsIgnorePolicy(Step(e, op), p, ops[1..]);
      } else {
        StepKeepsValid(p, PlainOp(op));
        assert PlainOps(ops)[1..] == rest;
        HardLimitsIgnorePolicy(Step(e, op), Step(p, PlainOp(op)), ops[1..]);
        if op.EvaluateOp? {
          EvaluateIsPlain(e, p, op.intent, op.clock, op.reader);
        }
      }
    }
  }

  /** Two runs from one engine that differ only in override operations and in which of
      normal, maintenance and manual is chosen give the same hard-limit verdicts. */
  lemma {:induction false} PolicyRunsAgree(e: Engine, ops: seq<Op>, others: seq<Op>)
    requires e.Valid() && PlainOps(ops) == PlainOps(others)
    ensures HardVerdicts(e, ops) == HardVerdicts(e, others)
  {
    HardLimitsIgnorePolicy(e, e, ops);
    HardLimitsIgnorePolicy(e, e, others);
  }

  // ---------- Off is always available ----------

  /** An off command for known equipment is allowed in every mode and every state, whatever
      the sensors say, so a bad input cannot trap equipment on. */
  lemma {:induction false} OffAlwaysAllowed(e: Engine, intent: Intent, clock: Time, reader: Reader)
    requires intent.equipmentId in e.profiles && !intent.on
    ensures Evaluate(e, intent, clock, reader).1 == Decided(ALLOW)
  {
  }
}
