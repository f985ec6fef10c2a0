/** The exact verdict on a command and the exact action of a check, in terms of nothing but the
    operations made so far: modes set, overrides granted, reports of the equipment, and what
    the sensors show. */
module Verdicts {
  import opened Domain
  import opened Safety
  import opened SafetyRuns
  import opened Accounting
  import opened Episodes
  import opened Grants
  import Profile
  import State
  import Watchdogs

  // ---------- Limits ----------

  ghost predicate OverMaximumOn(limits: Profile.Limits, calls: seq<Call>, now: Time) {
    limits.maximumOn > 0 && exists k :: EpisodeStart(calls, k) && now - calls[k].at >= limits.maximumOn
  }

  /** The reported on-time of the current UTC day, since that day's first call. */
  ghost function OnToday(calls: seq<Call>): nat
    requires calls != []
  {
    OnTime(calls, DayOpened(calls), calls[|calls| - 1].at)
  }

  ghost predicate OverMaximumDaily(limits: Profile.Limits, calls: seq<Call>)
    requires calls != []
  {
    limits.maximumDailyOn > 0 && OnToday(calls) >= limits.maximumDailyOn
  }

  ghost predicate UnderMinimumOff(limits: Profile.Limits, calls: seq<Call>, now: Time) {
    limits.minimumOff > 0 && exists k :: LastEnd(calls, k) && now - calls[k].at < limits.minimumOff
  }

  // ---------- Inputs ----------

  /** What a required input shows. */
  predicate Shows(requirement: Profile.Requirement, reader: Reader, reason: Reason) {
    match reason
    case InputMissing => requirement.key !in reader
    case InputStale => Reads(requirement, reader) && Entry(requirement, reader).quality == Stale
    case InputInvalid =>
      Reads(requirement, reader) && Entry(requirement, reader).quality !in {Good, Stale}
    case InputMismatch =>
      && Reads(requirement, reader) && Entry(requirement, reader).quality == Good
      && requirement.requireBoolean.Some? && Entry(requirement, reader).value.boolean != requirement.requireBoolean
    case _ => false
  }

  predicate Reads(requirement: Profile.Requirement, reader: Reader) {
    requirement.key in reader && reader[requirement.key].Found?
  }

  function Entry(requirement: Profile.Requirement, reader: Reader): State.Entry
    requires Reads(requirement, reader)
  {
    reader[requirement.key].entry
  }

  /** A good value, and the right one where one is asked for. */
  predicate Acceptable(requirement: Profile.Requirement, reader: Reader) {
    && Reads(requirement, reader) && Entry(requirement, reader).quality == Good
    && (requirement.requireBoolean.Some? ==> Entry(requirement, reader).value.boolean == requirement.requireBoolean)
  }

  ghost predicate FirstUnacceptable(requirements: seq<Profile.Requirement>, reader: Reader, i: int) {
    && 0 <= i < |requirements| && !Acceptable(requirements[i], reader)
    && forall j :: 0 <= j < i ==> Acceptable(requirements[j], reader)
  }

  /** The verdict on the inputs is that on the first one that is not acceptable. */
  lemma {:induction false} InputsExactly(requirements: seq<Profile.Requirement>, reader: Reader)
    ensures (forall i :: 0 <= i < |requirements| ==> Acceptable(requirements[i], reader))
            <==> ValidateInputs(requirements, reader) == Decided(ALLOW)
    ensures forall i :: FirstUnacceptable(requirements, reader, i) ==>
              var verdict := ValidateInputs(requirements, reader);
              if verdict.ReaderFailed? then requirements[i].key in reader && reader[requirements[i].key].Failed?
              else verdict == Decided(Decision(false, verdict.decision.reason, true, None))
                   && Shows(requirements[i], reader, verdict.decision.reason)
    ensures (exists i :: 0 <= i < |requirements| && !Acceptable(requirements[i], reader))
            ==> exists i :: FirstUnacceptable(requirements, reader, i)
    decreases |requirements|
  {
    if requirements != [] {
      var rest := requirements[1..];
      InputsExactly(rest, reader);
      OneInput(requirements[0], reader);
      if Acceptable(requirements[0], reader) {
        FirstShifts(requirements, reader);
      } else {
        assert FirstUnacceptable(requirements, reader, 0);
        assert !Acceptable(requirements[0], reader);
      }
    }
  }

  lemma {:induction false} OneInput(requirement: Profile.Requirement, reader: Reader)
    ensures var fault := InputFault(requirement, reader);
            && (fault.None? <==> Acceptable(requirement, reader))
            && (fault.Some? ==>
                  if fault.value.ReaderFailed? then requirement.key in reader && reader[requirement.key].Failed?
                  else fault.value == Decided(Decision(false, fault.value.decision.reason, true, None))
                       && Shows(requirement, reader, fault.value.decision.reason))
  {
  }

  lemma {:induction false} FirstShifts(requirements: seq<Profile.Requirement>, reader: Reader)
    requires requirements != [] && Acceptable(requirements[0], reader)
    ensures forall i :: FirstUnacceptable(requirements, reader, i) ==> i > 0 && FirstUnacceptable(requirements[1..], reader, i - 1)
    ensures forall i :: FirstUnacceptable(requirements[1..], reader, i) ==> FirstUnacceptable(requirements, reader, i + 1)
    ensures (forall i :: 0 <= i < |requirements| ==> Acceptable(requirements[i], reader))
            <==> forall i :: 0 <= i < |requirements[1..]| ==> Acceptable(requirements[1..][i], reader)
  {
    var rest := requirements[1..];
    assert forall i :: 0 <= i < |rest| ==> rest[i] == requirements[i + 1];
    forall i | FirstUnacceptable(rest, reader, i)
      ensures FirstUnacceptable(requirements, reader, i + 1)
    {
      forall j | 0 <= j < i + 1 ensures Acceptable(requirements[j], reader) {
        assert j > 0 ==> rest[j - 1] == requirements[j];
      }
    }
    if forall i :: 0 <= i < |rest| ==> Acceptable(rest[i], reader) {
      forall i | 0 <= i < |requirements| ensures Acceptable(requirements[i], reader) {
        assert i > 0 ==> rest[i - 1] == requirements[i];
      }
    }
  }

  // ---------- The verdict ----------

  /** The time an intent is judged at: its own, or the engine's. */
  function JudgedAt(intent: Intent, clock: Time): Time {
    if intent.issuedAt == 0 then clock else intent.issuedAt
  }

  /** The calls for the equipment, up to and with the one made at `now`. */
  function CallsUpTo(e: Engine, ops: seq<Op>, id: Id, now: Time): seq<Call> {
    CallsOf(e, ops, id) + [Call(now, None)]
  }

  function Denied(reason: Reason): Evaluation {
    Decided(Decision(false, reason, true, None))
  }

  /** The override of the equipment granted at `i` stands and has not run out by `now`. */
  ghost predicate InForce(e: Engine, ops: seq<Op>, id: Id, now: Time, i: int) {
    Stands(e, ops, id, i) && now < ops[i].override.expiresAt
  }

  /** The verdict on an on-intent as the history has it, `mode` being the one in effect. */
  ghost predicate VerdictIs(
      e: Engine, ops: seq<Op>, p: Profile.Profile, mode: Mode, now: Time, reader: Reader, verdict: Evaluation)
  {
    var calls := CallsUpTo(e, ops, p.equipmentId, now);
    if mode == EmergencyStop then verdict == Denied(EmergencyStopped)
    else if OverMaximumOn(p.limits, calls, now) then verdict == Denied(MaximumOn)
    else if OverMaximumDaily(p.limits, calls) then verdict == Denied(MaximumDailyOn)
    else if UnderMinimumOff(p.limits, calls, now) then verdict == Denied(MinimumOff)
    else if p.hazardous && exists i :: 0 <= i < |p.requiredInputs| && !Acceptable(p.requiredInputs[i], reader) then
      exists i :: FirstUnacceptable(p.requiredInputs, reader, i) && InputVerdict(p.requiredInputs[i], reader, verdict)
    else if mode in {Maintenance, Manual} && !exists i :: InForce(e, ops, p.equipmentId, now, i) then
      verdict == Decided(Decision(false, OverrideRequired, false, None))
    else
      && verdict.Decided? && verdict.decision == Decision(true, Allowed, false, verdict.decision.overrideId)
      && (if exists i :: InForce(e, ops, p.equipmentId, now, i)
          then exists i :: InForce(e, ops, p.equipmentId, now, i) && verdict.decision.overrideId == Some(ops[i].override.id)
          else verdict.decision.overrideId == None)
  }

  predicate InputVerdict(requirement: Profile.Requirement, reader: Reader, verdict: Evaluation) {
    if verdict.ReaderFailed? then requirement.key in reader && reader[requirement.key].Failed?
    else verdict == Denied(verdict.decision.reason) && Shows(requirement, reader, verdict.decision.reason)
  }

  /** The runtime that a verdict or a check at `now` looks at, as the reports have it. */
  lemma {:induction false} RuntimeByReports(e: Engine, ops: seq<Op>, id: Id, now: Time)
    requires New(e) && id in e.profiles && Ordered(CallsUpTo(e, ops, id, now))
    ensures var calls, r := CallsUpTo(e, ops, id, now), Account(Run(e, ops).RuntimeOf(id), now);
            && (r.on <==> OnNow(calls))
            && (forall k :: EpisodeStart(calls, k) ==> r.onSince == calls[k].at)
            && (r.on ==> exists k :: EpisodeStart(calls, k))
            && r.dailyOn == OnToday(calls)
            && (forall k :: LastEnd(calls, k) ==> r.offSince == calls[k].at)
            && (r.offSince != 0 <==> exists k :: LastEnd(calls, k))
  {
    var calls := CallsUpTo(e, ops, id, now);
    assert calls[..|calls| - 1] == CallsOf(e, ops, id);
    RuntimeIsOwnReplay(e, ops, id);
    ApplyAgrees(Run(e, ops).RuntimeOf(id), Replay(CallsOf(e, ops, id)), Call(now, None));
    ReplayByReports(calls);
  }

  lemma {:induction false} ReplayByReports(calls: seq<Call>)
    requires calls != [] && Ordered(calls)
    ensures var r := Replay(calls);
            && (r.on <==> OnNow(calls))
            && (forall k :: EpisodeStart(calls, k) ==> r.onSince == calls[k].at)
            && (r.on ==> exists k :: EpisodeStart(calls, k))
            && r.dailyOn == OnToday(calls)
            && (forall k :: LastEnd(calls, k) ==> r.offSince == calls[k].at)
            && (r.offSince != 0 <==> exists k :: LastEnd(calls, k))
  {
    ReplayIsOn(calls);
    if OnNow(calls) {
      var start := FindStart(calls);
    }
    forall k | EpisodeStart(calls, k) ensures Replay(calls).onSince == calls[k].at {
      OnSinceIsStart(calls, k);
    }
    DailyOnIsReportedOnTime(calls);
    OffSinceIsEnd(calls);
  }

  /** The limits, as the runtime keeps them and as the reports have them. */
  lemma {:induction false} LimitsByReports(limits: Profile.Limits, calls: seq<Call>, r: Runtime, now: Time)
    requires calls != [] && (r.on <==> OnNow(calls)) && r.dailyOn == OnToday(calls)
    requires forall k :: EpisodeStart(calls, k) ==> r.onSince == calls[k].at && OnNow(calls)
    requires r.on ==> exists k :: EpisodeStart(calls, k)
    requires forall k :: LastEnd(calls, k) ==> r.offSince == calls[k].at
    requires r.offSince != 0 <==> exists k :: LastEnd(calls, k)
    ensures r.on && limits.maximumOn > 0 && now - r.onSince >= limits.maximumOn <==> OverMaximumOn(limits, calls, now)
    ensures limits.maximumDailyOn > 0 && r.dailyOn >= limits.maximumDailyOn <==> OverMaximumDaily(limits, calls)
    ensures r.offSince != 0 && limits.minimumOff > 0 && now - r.offSince < limits.minimumOff
            <==> UnderMinimumOff(limits, calls, now)
  {
  }

  lemma {:induction false} StartMeansOn(calls: seq<Call>, k: int)
    requires EpisodeStart(calls, k)
    ensures OnNow(calls)
  {
    StartCovers(calls, k, |calls|);
    assert calls[..|calls|] == calls;
  }

  lemma {:induction false} LimitsOf(e: Engine, ops: seq<Op>, id: Id, now: Time)
    requires New(e) && id in e.profiles && Ordered(CallsUpTo(e, ops, id, now))
    ensures var calls, r, limits := CallsUpTo(e, ops, id, now), Account(Run(e, ops).RuntimeOf(id), now), e.profiles[id].limits;
            && (r.on <==> OnNow(calls))
            && (r.on && limits.maximumOn > 0 && now - r.onSince >= limits.maximumOn <==> OverMaximumOn(limits, calls, now))
            && (limits.maximumDailyOn > 0 && r.dailyOn >= limits.maximumDailyOn <==> OverMaximumDaily(limits, calls))
            && (r.offSince != 0 && limits.minimumOff > 0 && now - r.offSince < limits.minimumOff
                <==> UnderMinimumOff(limits, calls, now))
  {
    var calls := CallsUpTo(e, ops, id, now);
    RuntimeByReports(e, ops, id, now);
    forall k | EpisodeStart(calls, k) ensures OnNow(calls) {
      StartMeansOn(calls, k);
    }
    LimitsByReports(e.profiles[id].limits, calls, Account(Run(e, ops).RuntimeOf(id), now), now);
  }

  /** The override in force, as the engine keeps it and as the grants have it. */
  lemma {:induction false} OverrideByGrants(e: Engine, ops: seq<Op>, id: Id, now: Time)
    requires New(e)
    ensures var o := OverrideAt(Run(e, ops), id, now);
            && (o.Some? <==> exists i :: InForce(e, ops, id, now, i))
            && (forall i :: InForce(e, ops, id, now, i) ==> o.Some? && o.value.id == ops[i].override.id)
  {
    OverridesAreStandingGrants(e, ops, id);
    if id in Run(e, ops).overrides {
      var i :| Stands(e, ops, id, i);
      assert Run(e, ops).overrides[id].expiresAt == ops[i].override.expiresAt;
      if now < ops[i].override.expiresAt {
        assert InForce(e, ops, id, now, i);
      }
    }
  }

  /** The judgement on given facts, spelled out. */
  lemma {:induction false} JudgementIs(
      e: Engine, ops: seq<Op>, p: Profile.Profile, mode: Mode, r: Runtime, o: Option<Override>, now: Time, reader: Reader)
    requires var calls, limits := CallsUpTo(e, ops, p.equipmentId, now), p.limits;
             && (r.on && limits.maximumOn > 0 && now - r.onSince >= limits.maximumOn <==> OverMaximumOn(limits, calls, now))
             && (limits.maximumDailyOn > 0 && r.dailyOn >= limits.maximumDailyOn <==> OverMaximumDaily(limits, calls))
             && (r.offSince != 0 && limits.minimumOff > 0 && now - r.offSince < limits.minimumOff
                 <==> UnderMinimumOff(limits, calls, now))
    requires o.Some? <==> exists i :: InForce(e, ops, p.equipmentId, now, i)
    requires forall i :: InForce(e, ops, p.equipmentId, now, i) ==> o.Some? && o.value.id == ops[i].override.id
    ensures VerdictIs(e, ops, p, mode, now, reader, Judge(mode, p, r, o, true, now, reader))
  {
    InputsExactly(p.requiredInputs, reader);
  }

  /** Main result: from a new engine, after any run, the verdict on an on-intent for known
      equipment is determined by the mode last set, the reports of the equipment, the values
      its inputs show and the overrides that stand: emergency stop first, then the time on, the
      reported on-time of the day and the time since it went off, then the inputs, then the
      need for an override. */
  lemma {:induction false} VerdictExactly(e: Engine, ops: seq<Op>, intent: Intent, clock: Time, reader: Reader)
    requires New(e) && intent.on && intent.equipmentId in e.profiles
    requires Ordered(CallsUpTo(e, ops, intent.equipmentId, JudgedAt(intent, clock)))
    ensures VerdictIs(e, ops, e.profiles[intent.equipmentId], Run(e, ops).mode, JudgedAt(intent, clock), reader,
                      Evaluate(Run(e, ops), intent, clock, reader).1)
  {
    var id, now, s := intent.equipmentId, JudgedAt(intent, clock), Run(e, ops);
    RunKeepsValid(e, ops);
    LimitsOf(e, ops, id, now);
    OverrideByGrants(e, ops, id, now);
    JudgementIs(e, ops, e.profiles[id], s.mode, Account(s.RuntimeOf(id), now), OverrideAt(s, id, now), now, reader);
  }

  /** In emergency stop nothing is turned on, whatever the times of earlier calls. */
  lemma {:induction false} EmergencyStopDenies(e: Engine, intent: Intent, clock: Time, reader: Reader)
    requires e.mode == EmergencyStop && intent.on && intent.equipmentId in e.profiles
    ensures Evaluate(e, intent, clock, reader).1 == Denied(EmergencyStopped)
  {
  }

  lemma {:induction false} UnknownEquipmentIsRefused(e: Engine, intent: Intent, clock: Time, reader: Reader)
    requires intent.equipmentId !in e.profiles
    ensures Evaluate(e, intent, clock, reader) == (e, Decided(Decision(false, UnknownEquipment, false, None)))
  {
  }

  // ---------- The action ----------

  /** An override of the equipment stands and has run out by `now`. */
  ghost predicate RunOut(e: Engine, ops: seq<Op>, id: Id, now: Time) {
    exists i :: Stands(e, ops, id, i) && ops[i].override.expiresAt <= now
  }

  /** Why a check at `now` acts on an on-episode not yet acted on. */
  ghost predicate Causes(e: Engine, ops: seq<Op>, id: Id, now: Time, reason: Reason)
    requires id in e.profiles
  {
    var calls, limits := CallsUpTo(e, ops, id, now), e.profiles[id].limits;
    match reason
    case OverrideExpired => RunOut(e, ops, id, now)
    case MaximumOn => !RunOut(e, ops, id, now) && OverMaximumOn(limits, calls, now)
    case MaximumDailyOn =>
      !RunOut(e, ops, id, now) && !OverMaximumOn(limits, calls, now) && OverMaximumDaily(limits, calls)
    case _ => false
  }

  lemma {:induction false} DueByGrants(e: Engine, ops: seq<Op>, id: Id, now: Time)
    requires New(e)
    ensures OverrideDue(Run(e, ops), id, now) <==> RunOut(e, ops, id, now)
  {
    OverridesAreStandingGrants(e, ops, id);
    if id in Run(e, ops).overrides {
      var i :| Stands(e, ops, id, i);
    }
  }

  /** A check acts on an episode that bears no mark exactly for one of the causes. */
  lemma {:induction false} UnattendedActsExactlyWhen(e: Engine, ops: seq<Op>, id: Id, now: Time, reason: Reason)
    requires New(e) && id in e.profiles && Ordered(CallsUpTo(e, ops, id, now))
    ensures ActionFor(Run(e, ops), id, now) == Some(Action(id, e.profiles[id].failSafeOn, reason, now))
            <==> && OnNow(CallsUpTo(e, ops, id, now)) && Run(e, ops).RuntimeOf(id).watchdogReason.None?
                 && Causes(e, ops, id, now, reason)
    ensures ActionFor(Run(e, ops), id, now).Some? ==>
              exists why :: ActionFor(Run(e, ops), id, now) == Some(Action(id, e.profiles[id].failSafeOn, why, now))
  {
    var s := Run(e, ops);
    RunKeepsValid(e, ops);
    LimitsOf(e, ops, id, now);
    DueByGrants(e, ops, id, now);
    CheckOneExactly(e.profiles[id], OverrideDue(s, id, now), s.RuntimeOf(id), now, reason);
  }

  /** The check of one equipment, spelled out. */
  lemma {:induction false} CheckOneExactly(p: Profile.Profile, due: bool, r: Runtime, now: Time, reason: Reason)
    ensures var a, action := Account(r, now), CheckOne(p, due, r, now).1;
            var overOn := a.on && p.limits.maximumOn > 0 && now - a.onSince >= p.limits.maximumOn;
            var overDaily := p.limits.maximumDailyOn > 0 && a.dailyOn >= p.limits.maximumDailyOn;
            && (action == Some(Action(p.equipmentId, p.failSafeOn, reason, now)) <==>
                  && a.on && r.watchdogReason.None?
                  && (match reason
                      case OverrideExpired => due
                      case MaximumOn => !due && overOn
                      case MaximumDailyOn => !due && !overOn && overDaily
                      case _ => false))
            && (action.Some? ==> action == Some(Action(p.equipmentId, p.failSafeOn, action.value.reason, now)))
  {
  }
}
