/** Whole runs of submissions, polls and safety operations, interleaved section by section:
    what a command that is reported as succeeded must have been through, which reading it
    rests on, and which commands are never settled. */
module ShellyRuns {
  import opened Domain
  import opened Shelly
  import opened ShellySteps
  import O = Output
  import OutputRuns
  import Safety
  import SafetyRuns

  /** Identifiers are fresh. */
  predicate Sound(s: System, op: Op) {
    match op
    case SubmitOp(command, w) => OutputRuns.Fresh(s.service, O.Prepare(command, w.service))
    case HandOverOp(_, _, w) => w.service.commandId !in s.service.results
    case SettleOp(_, w, _) => w.service.commandId !in s.service.results
    case _ => true
  }

  ghost predicate SoundRun(c: Config, s: System, ops: seq<Op>)
    decreases |ops|
  {
    ops == [] || (Sound(s, ops[0]) && SoundRun(c, Step(c, s, ops[0]), ops[1..]))
  }

  lemma {:induction false} StepKeeps(c: Config, s: System, op: Op)
    requires Invariant(s) && Sound(s, op)
    ensures Invariant(Step(c, s, op)) && Follows(s, Step(c, s, op))
  {
    match op
    case SubmitOp(command, w) =>
      SubmitKeeps(c, s, command, w);
      MarkedStays(s, Submit(c, s, command, w));
    case ReadOp(ep, config, status, now) => ReadKeeps(s, ep, config, status, now);
    case LookOp(key) => LookKeeps(s, key);
    case HandOverOp(key, stored, w) => HandOverKeeps(c, s, key, stored, w);
    case SettleOp(key, w, bus) => SettleKeeps(c, s, key, w, bus);
    case SafetyOp(safety) =>
      LogGrows(s, Step(c, s, op));
      MarkedStays(s, Step(c, s, op));
  }

  lemma {:induction false} RunKeeps(c: Config, s: System, ops: seq<Op>)
    requires Invariant(s) && SoundRun(c, s, ops)
    ensures Invariant(Run(c, s, ops))
    decreases |ops|
  {
    if ops != [] {
      StepKeeps(c, s, ops[0]);
      RunKeeps(c, Step(c, s, ops[0]), ops[1..]);
    }
  }

  // ---------- What the engine said is what the log says ----------

  /** Judgements and records are those of the safety engine, in the state they name. */
  predicate Honest(e: Event) {
    && (e.Judged? ==> e.verdict == Safety.Evaluate(e.engine, IntentOf(e.judged), e.clock, e.reader).1)
    && (e.RecordedBySafety? ==> e.recorded == Safety.RecordReported(e.before, e.equipment, e.on, e.at).1)
  }

  ghost predicate HonestLog(log: seq<Event>) {
    forall i :: 0 <= i < |log| ==> Honest(log[i])
  }

  lemma {:induction false} HonestSnoc(log: seq<Event>, more: seq<Event>)
    requires HonestLog(log) && HonestLog(more)
    ensures HonestLog(log + more)
  {
  }

  lemma {:induction false} SubmitHonest(c: Config, s: System, given: O.Command, w: SubmitWorld)
    requires HonestLog(s.log)
    ensures HonestLog(Submit(c, s, given, w).log)
  {
    ConsultHonest(c, s, given, w);
    var s1 := Consult(c, s, given, w);
    DeliverHonest(s1, O.Submit(s.service, given, WorldOf(c, s, given, w)), Outcome(c, O.Prepare(given, w.service), w));
  }

  lemma {:induction false} ConsultHonest(c: Config, s: System, given: O.Command, w: SubmitWorld)
    requires HonestLog(s.log)
    ensures HonestLog(Consult(c, s, given, w).log)
  {
    var command := O.Prepare(given, w.service);
    var e := Judged(command, s.engine, w.clock, w.reader, Verdict(s, command, w).1);
    assert HonestLog([e]);
    HonestSnoc(s.log, [e]);
  }

  lemma {:induction false} DeliverHonest(s: System, submission: O.Submission, outcome: O.DispatchOutcome)
    requires HonestLog(s.log)
    ensures HonestLog(Deliver(s, submission, outcome).log)
  {
    if submission.sent.Some? {
      var id := submission.sent.value.id;
      HonestSnoc(s.log, [SentOut(id)]);
      HonestSnoc(s.log, [SentOut(id), Accepted(id)]);
    }
  }

  lemma {:induction false} FailureHonest(c: Config, s: System, ep: Endpoint, active: bool, at: Time, w: SubmitWorld)
    requires HonestLog(s.log)
    ensures HonestLog(Failure(c, s, ep, active, at, w).log)
  {
    SubmitHonest(c, s.(failing := s.failing[ep.id := active]), SafeCommand(ep, at), w);
  }

  lemma {:induction false} ExpireHonest(s: System, equipment: Id, at: Time, bus: Bus)
    requires HonestLog(s.log) && equipment in s.pending
    ensures HonestLog(Expire(s, equipment, at, bus).log)
  {
  }

  lemma {:induction false} ReconcileHonest(s: System, equipment: Id, output: bool, at: Time, bus: Bus)
    requires HonestLog(s.log) && equipment in s.pending
    ensures HonestLog(Reconcile(s, equipment, output, at, bus).log)
  {
  }

  lemma {:induction false} ExpireIfNeededHonest(
      c: Config, s: System, ep: Endpoint, at: Time, force: bool, w: SubmitWorld, bus: Bus)
    requires HonestLog(s.log)
    ensures HonestLog(ExpireIfNeeded(c, s, ep, at, force, w, bus).log)
  {
    if ep.equipmentId in s.pending {
      ExpireHonest(s, ep.equipmentId, at, bus);
      FailureHonest(c, Expire(s, ep.equipmentId, at, bus), ep, true, at, w);
    }
  }

  lemma {:induction false} HandOverHonest(c: Config, s: System, key: Id, stored: bool, w: SubmitWorld)
    requires HonestLog(s.log)
    ensures HonestLog(HandOver(c, s, key, stored, w).log)
  {
    if key in s.flights {
      var f := s.flights[key];
      if f.phase == Unreached {
        FailureHonest(c, s.(flights := s.flights[key := f.(phase := Signalled)]), f.endpoint, true, f.now, w);
      } else if f.phase == Looked {
        var s1 := s.(flights := s.flights[key := f.(phase := Reported)]);
        FailureHonest(c, s1, f.endpoint, true, f.now, w);
        FailureHonest(c, s1, f.endpoint, false, f.now, w);
      }
    }
  }

  lemma {:induction false} SettleHonest(c: Config, s: System, key: Id, w: SubmitWorld, bus: Bus)
    requires HonestLog(s.log)
    ensures HonestLog(Settle(c, s, key, w, bus).log)
  {
    if key in s.flights {
      var f, over := s.flights[key], s.(flights := s.flights - {key});
      if f.phase == Signalled {
        ExpireIfNeededHonest(c, over, f.endpoint, f.now, true, w, bus);
      } else if f.phase == Reported && f.endpoint.equipmentId in over.pending {
        ExpireIfNeededHonest(c, over, f.endpoint, f.now, false, w, bus);
        ReconcileHonest(over, f.endpoint.equipmentId, f.output, f.now, bus);
      }
    }
  }

  lemma {:induction false} RunHonest(c: Config, s: System, ops: seq<Op>)
    requires HonestLog(s.log)
    ensures HonestLog(Run(c, s, ops).log)
    decreases |ops|
  {
    if ops != [] {
      match ops[0] {
        case SubmitOp(command, w) => SubmitHonest(c, s, command, w);
        case ReadOp(_, _, _, _) =>
        case LookOp(_) =>
        case HandOverOp(key, stored, w) => HandOverHonest(c, s, key, stored, w);
        case SettleOp(key, w, bus) => SettleHonest(c, s, key, w, bus);
        case SafetyOp(_) =>
      }
      RunHonest(c, Step(c, s, ops[0]), ops[1..]);
    }
  }

  // ---------- Main results ----------

  /** Main result, over every interleaving of submissions, poll sections and safety-engine
      operations with fresh identifiers: a command on record as succeeded was admitted by
      the safety engine for its own intent, sent exactly once, taken by the device, matched
      by a polled reading of that very output strictly before its deadline, and that reading
      was taken by the safety engine. No record says reported-mismatch, and a command that
      the adapter expired had reached its deadline. */
  lemma {:induction false} SuccessIsProven(c: Config, engine: Safety.Engine, ops: seq<Op>, id: Id)
    requires SoundRun(c, Start(engine), ops) && id in Run(c, Start(engine), ops).service.results
    ensures var s := Run(c, Start(engine), ops);
            var r := s.service.results[id];
            && r.command.id == id
            && (r.status == O.Succeeded ==> Proven(s.log, r.command))
            && HonestLog(s.log)
            && r.reason != O.ReportedMismatch
            && (r.status == O.Expired && r.reason != O.WasExpired ==> LapsedLate(s.log, r.command))
            && (forall i, j :: 0 <= i < j < |s.log| && s.log[i] == SentOut(id) ==> s.log[j] != SentOut(id))
  {
    assert Invariant(Start(engine));
    RunKeeps(c, Start(engine), ops);
    RunHonest(c, Start(engine), ops);
    var s := Run(c, Start(engine), ops);
    assert BornOut(s.log, s.service.results[id]);
  }

  /** The evidence, spelled out: there were engine states in which the policy allowed this
      command and in which the confirming reading was recorded. */
  lemma {:induction false} SuccessWasAllowed(c: Config, engine: Safety.Engine, ops: seq<Op>, id: Id)
    returns (k: nat, m: nat, n: nat)
    requires SoundRun(c, Start(engine), ops) && id in Run(c, Start(engine), ops).service.results
    requires Run(c, Start(engine), ops).service.results[id].status == O.Succeeded
    ensures var log, command := Run(c, Start(engine), ops).log, Run(c, Start(engine), ops).service.results[id].command;
            && 2 <= k < n < |log| && m < n
            && log[k - 2].Judged? && log[k] == Accepted(id)
            && (var evaluation := Safety.Evaluate(log[k - 2].engine, IntentOf(command), log[k - 2].clock, log[k - 2].reader).1;
                evaluation.Decided? && evaluation.decision.allowed)
            && log[m].Polled? && log[m].equipment == command.equipmentId && log[m].output == command.on
            && log[m].at < command.expiresAt
            && log[n].RecordedBySafety?
            && Safety.RecordReported(log[n].before, command.equipmentId, command.on, log[m].at).1
  {
    SuccessIsProven(c, engine, ops, id);
    var s := Run(c, Start(engine), ops);
    k, m, n :| ProvenAt(s.log, s.service.results[id].command, k, m, n);
    assert Honest(s.log[k - 2]) && Honest(s.log[n]);
  }

  // ---------- Which reading a success rests on ----------

  ghost predicate Succeeded(s: System, id: Id) {
    id in s.service.results && s.service.results[id].status == O.Succeeded
  }

  /** The section that makes a command succeed settles what is pending at that moment. */
  lemma {:induction false} SettleConfirmsPending(c: Config, s: System, key: Id, w: SubmitWorld, bus: Bus, id: Id)
    requires Invariant(s) && w.service.commandId !in s.service.results
    requires Succeeded(Settle(c, s, key, w, bus), id) && !Succeeded(s, id)
    ensures key in s.flights && s.flights[key].phase == Reported
    ensures var equipment := s.flights[key].endpoint.equipmentId;
            equipment in s.pending && s.pending[equipment].id == id
  {
    var f, over := s.flights[key], s.(flights := s.flights - {key});
    LogGrows(s, over);
    if f.phase == Signalled {
      ExpireIfNeededKeeps(c, over, f.endpoint, f.now, true, w, bus);
    } else {
      ConfirmConfirmsPending(c, over, f, w, bus, id);
    }
  }

  lemma {:induction false} ConfirmConfirmsPending(c: Config, s: System, f: Flight, w: SubmitWorld, bus: Bus, id: Id)
    requires Core(s) && w.service.commandId !in s.service.results
    requires Succeeded(Confirm(c, s, f, w, bus), id) && !Succeeded(s, id)
    ensures f.endpoint.equipmentId in s.pending && s.pending[f.endpoint.equipmentId].id == id
  {
    var equipment := f.endpoint.equipmentId;
    if s.pending[equipment].expiresAt <= f.now {
      ExpireIfNeededKeeps(c, s, f.endpoint, f.now, false, w, bus);
    } else {
      MatchConfirmsPending(s, equipment, f.output, f.now, bus, id);
    }
  }

  lemma {:induction false} MatchConfirmsPending(s: System, equipment: Id, output: bool, at: Time, bus: Bus, id: Id)
    requires Core(s) && equipment in s.pending && output == s.pending[equipment].want
    requires Succeeded(Reconcile(s, equipment, output, at, bus), id) && !Succeeded(s, id)
    ensures s.pending[equipment].id == id
  {
    ReconcileForm(s, equipment, output, at, bus);
  }

  /** In every interleaving: the device had taken a command before the reading that confirms
      it exactly when the command was pending as the reading was taken. */
  lemma {:induction false} ReadingFollowsDispatchIff(c: Config, s: System, key: Id, w: SubmitWorld, bus: Bus, id: Id)
    requires Invariant(s) && w.service.commandId !in s.service.results
    requires Succeeded(Settle(c, s, key, w, bus), id) && !Succeeded(s, id)
    ensures key in s.flights && key in s.marks && s.flights[key].endpoint.equipmentId in s.pending
    ensures s.flights[key].phase == Reported
    ensures var f, mark := s.flights[key], s.marks[key];
            && mark.reading < |s.log| && s.log[mark.reading] == Polled(f.endpoint.equipmentId, f.output, f.now)
            && s.pending[f.endpoint.equipmentId].id == id
            && (TakenBefore(s.log, mark.reading, id) <==> mark.was == Some(s.pending[f.endpoint.equipmentId]))
  {
    SettleConfirmsPending(c, s, key, w, bus, id);
    assert HasReading(s.flights[key]);
  }
}
