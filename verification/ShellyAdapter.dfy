/** The adapter and coordinator that update their tables in place and drive the safety engine
    and the output service. Every method is proved against the functions of `Shelly`. */
module ShellyAdapter {
  import opened Domain
  import O = Output
  import OutputService
  import Safety
  import SafetyEngine
  import S = Shelly

  class Bench {
    const config: S.Config
    const engine: SafetyEngine.Engine
    const service: OutputService.Service
    var pending: map<Id, S.Pending>
    var desired: map<Id, bool>
    var failing: map<Id, bool>
    var flights: map<Id, S.Flight>
    ghost var marks: map<Id, S.Mark>
    ghost var log: seq<S.Event>

    ghost function Abs(): S.System
      reads this, engine, service
    {
      S.System(engine.Abs(), service.Abs(), pending, desired, failing, flights, marks, log)
    }

    constructor (config: S.Config, engine: SafetyEngine.Engine)
      ensures fresh(service) && this.config == config && this.engine == engine
      ensures Abs() == S.Start(engine.Abs())
    {
      this.config, this.engine := config, engine;
      service := new OutputService.Service();
      pending, desired, failing, flights := map[], map[], map[], map[];
      marks, log := map[], [];
    }

    /** Calls `Switch.Set` until it succeeds or the retries are used up. A reply that never
        comes counts as a failure. */
    method SetWithRetry(ep: S.Endpoint, replies: seq<bool>) returns (ok: bool)
      ensures ok == S.SetSucceeds(replies, ep.retries)
    {
      var attempt := 0;
      while attempt <= ep.retries
        invariant 0 <= attempt <= ep.retries + 1
        invariant forall i :: 0 <= i < attempt && i < |replies| ==> !replies[i]
      {
        if attempt < |replies| && replies[attempt] {
          return true;
        }
        attempt := attempt + 1;
      }
      ok := false;
    }

    /** The answer this adapter gives to a dispatch. */
    method Answer(command: O.Command, w: S.SubmitWorld) returns (outcome: O.DispatchOutcome)
      ensures outcome == S.Outcome(config, command, w)
    {
      if command.equipmentId !in config.endpoints {
        return O.Answered(false, 0);
      }
      var ok := SetWithRetry(config.endpoints[command.equipmentId], w.replies);
      if !ok {
        return O.DispatchError;
      }
      outcome := O.Answered(true, w.acceptedAt);
    }

    /** Asks the policy, if the service comes that far. */
    method Consult(given: O.Command, w: S.SubmitWorld) returns (evaluation: Safety.Evaluation)
      modifies this`log, engine
      ensures Abs() == S.Consult(config, old(Abs()), given, w)
      ensures O.Consults(service.Abs(), given, w.service) ==>
                evaluation == S.Verdict(old(Abs()), O.Prepare(given, w.service), w).1
    {
      var command := O.Prepare(given, w.service);
      evaluation := Safety.ReaderFailed;
      if command.Valid() && command.idempotencyKey !in service.idempotency && w.service.now < command.expiresAt
         && (command.expectedRevision.Some? ==> w.service.revision == command.expectedRevision) {
        ghost var before := engine.Abs();
        evaluation := engine.Evaluate(S.IntentOf(command), w.clock, w.reader);
        log := log + [S.Judged(command, before, w.clock, w.reader, evaluation)];
      }
    }

    method Submit(given: O.Command, w: S.SubmitWorld)
      modifies this, engine, service
      ensures Abs() == S.Submit(config, old(Abs()), given, w)
    {
      ghost var world := S.WorldOf(config, Abs(), given, w);
      var evaluation := Consult(given, w);
      Send(given, w, evaluation, world);
    }

    /** The service's part, with the policy's answer. */
    method Send(given: O.Command, w: S.SubmitWorld, evaluation: Safety.Evaluation, ghost world: O.World)
      requires world == w.service.(evaluation := world.evaluation, dispatch := S.Outcome(config, O.Prepare(given, w.service), w))
      requires O.Consults(service.Abs(), given, w.service) ==> evaluation == world.evaluation
      modifies this`pending, this`desired, this`log, service
      ensures Abs() == S.Deliver(old(Abs()), O.Submit(old(service.Abs()), given, world),
                                 S.Outcome(config, O.Prepare(given, w.service), w))
    {
      var outcome := Answer(O.Prepare(given, w.service), w);
      UnaskedIsIrrelevant(service.Abs(), given, w.service, evaluation, world.evaluation, outcome);
      ghost var submission := O.Submit(service.Abs(), given, world);
      var returned, sent := service.Submit(given, w.service.(evaluation := evaluation, dispatch := outcome));
      Deliver(sent, outcome, submission);
    }

    /** What a dispatch leaves in the adapter's tables. */
    method Deliver(sent: Option<O.Command>, outcome: O.DispatchOutcome, ghost submission: O.Submission)
      requires submission.sent == sent && submission.service == service.Abs()
      modifies this`pending, this`desired, this`log
      ensures Abs() == S.Deliver(old(Abs()), submission, outcome)
    {
      if sent.Some? {
        var command := sent.value;
        if outcome.Answered? && outcome.accepted {
          pending := pending[command.equipmentId := S.Pending(command.id, command.on, command.expiresAt)];
          desired := desired[command.equipmentId := command.on];
          log := log + [S.SentOut(command.id), S.Accepted(command.id)];
        } else {
          log := log + [S.SentOut(command.id)];
        }
      }
    }

    method Failure(ep: S.Endpoint, active: bool, at: Time, w: S.SubmitWorld)
      modifies this, engine, service
      ensures Abs() == S.Failure(config, old(Abs()), ep, active, at, w)
    {
      if ep.id !in config.policies {
        return;
      }
      var was := ep.id in failing && failing[ep.id];
      failing := failing[ep.id := active];
      if active && !was {
        Submit(S.SafeCommand(ep, at), w);
      }
    }

    method Expire(equipment: Id, at: Time, bus: S.Bus)
      requires equipment in pending
      modifies this, service
      ensures Abs() == S.Expire(old(Abs()), equipment, at, bus)
    {
      var id := pending[equipment].id;
      var settled := service.ExpireAcknowledged(id, S.EXPIRED_CODE, at, bus.expirePublished);
      if settled.Settled? {
        if settled.published {
          pending := pending - {equipment};
        }
        log := log + [S.Lapsed(id, at)];
      }
    }

    method ExpireIfNeeded(ep: S.Endpoint, at: Time, force: bool, w: S.SubmitWorld, bus: S.Bus)
      modifies this, engine, service
      ensures Abs() == S.ExpireIfNeeded(config, old(Abs()), ep, at, force, w, bus)
    {
      if ep.equipmentId !in pending || (!force && at < pending[ep.equipmentId].expiresAt) {
        return;
      }
      Expire(ep.equipmentId, at, bus);
      Failure(ep, true, at, w);
    }

    /** Records the reading with the safety engine, then settles the command with it. */
    method Reconcile(equipment: Id, output: bool, at: Time, bus: S.Bus)
      requires equipment in pending
      modifies this, engine, service
      ensures Abs() == S.Reconcile(old(Abs()), equipment, output, at, bus)
    {
      var id := pending[equipment].id;
      if at == 0 || id !in service.results || service.results[id].status != O.Acknowledged {
        return;
      }
      var target := service.results[id].command.equipmentId;
      ghost var before := engine.Abs();
      var recorded := engine.RecordReported(target, output, at);
      var settled := service.Reconcile(id, output, at, recorded, bus.reconcilePublished);
      if settled.Settled? && settled.published {
        pending := pending - {equipment};
      }
      log := log + [S.RecordedBySafety(before, target, output, at, recorded)];
    }

    // ---------- The sections of a poll ----------

    method Read(ep: S.Endpoint, config: S.ConfigReply, status: S.StatusReply, now: Time)
      modifies this`flights, this`marks, this`log
      ensures Abs() == S.Read(old(Abs()), ep, config, status, now)
    {
      if ep.id in flights {
        return;
      }
      if config.ConfigError? || config.text != S.ExpectedInitialState(ep.powerReturn) || status.StatusError? {
        flights := flights[ep.id := S.Flight(ep, S.Unreached, now, false, false, None, false)];
        return;
      }
      flights := flights[ep.id := S.Flight(ep, S.Fetched, now, status.output, status.faulty, None, false)];
      marks := marks[ep.id := S.Mark(|log|, S.Lookup(pending, ep.equipmentId))];
      log := log + [S.Polled(ep.equipmentId, status.output, now)];
    }

    method Look(key: Id)
      modifies this`flights
      ensures Abs() == S.Look(old(Abs()), key)
    {
      if key in flights && flights[key].phase == S.Fetched {
        var f := flights[key];
        var wanted := if f.endpoint.equipmentId in desired then Some(desired[f.endpoint.equipmentId]) else None;
        flights := flights[key := f.(phase := S.Looked, desired := wanted, hasPending := f.endpoint.equipmentId in pending)];
      }
    }

    method Report(f: S.Flight, stored: bool, w: S.SubmitWorld)
      modifies this, engine, service
      ensures Abs() == S.Report(config, old(Abs()), f, stored, w)
    {
      if !stored {
        return;
      }
      if f.faulty {
        Failure(f.endpoint, true, f.now, w);
        return;
      }
      var wanted := f.endpoint.safeOn;
      if f.desired.Some? {
        wanted := f.desired.value;
      }
      if !f.hasPending && f.output != wanted {
        Failure(f.endpoint, true, f.now, w);
      } else if f.output == wanted {
        Failure(f.endpoint, false, f.now, w);
      }
    }

    method HandOver(key: Id, stored: bool, w: S.SubmitWorld)
      modifies this, engine, service
      ensures Abs() == S.HandOver(config, old(Abs()), key, stored, w)
    {
      if key !in flights {
        return;
      }
      var f := flights[key];
      if f.phase == S.Unreached {
        flights := flights[key := f.(phase := S.Signalled)];
        Failure(f.endpoint, true, f.now, w);
      } else if f.phase == S.Looked {
        flights := flights[key := f.(phase := S.Reported)];
        Report(f, stored, w);
      }
    }

    method Confirm(f: S.Flight, w: S.SubmitWorld, bus: S.Bus)
      modifies this, engine, service
      ensures Abs() == S.Confirm(config, old(Abs()), f, w, bus)
    {
      var equipment := f.endpoint.equipmentId;
      if equipment !in pending {
        return;
      }
      if pending[equipment].expiresAt <= f.now {
        ExpireIfNeeded(f.endpoint, f.now, false, w, bus);
        return;
      }
      if f.output == pending[equipment].want {
        Reconcile(equipment, f.output, f.now, bus);
      }
    }

    method Settle(key: Id, w: S.SubmitWorld, bus: S.Bus)
      modifies this, engine, service
      ensures Abs() == S.Settle(config, old(Abs()), key, w, bus)
    {
      if key !in flights {
        return;
      }
      var f := flights[key];
      if f.phase == S.Signalled {
        flights := flights - {key};
        ExpireIfNeeded(f.endpoint, f.now, true, w, bus);
      } else if f.phase == S.Reported {
        flights := flights - {key};
        Confirm(f, w, bus);
      }
    }

    /** A poll that nothing interrupts. */
    method Poll(ep: S.Endpoint, p: S.Poll)
      modifies this, engine, service
      ensures Abs() == S.PollStep(config, old(Abs()), ep, p)
    {
      Read(ep, p.config, p.status, p.now);
      Look(ep.id);
      HandOver(ep.id, p.stored, p.first);
      Settle(ep.id, p.second, p.bus);
    }
  }

  /** A policy that is not asked has no bearing on the submission. */
  lemma {:induction false} UnaskedIsIrrelevant(
      s: O.Service, given: O.Command, w: O.World, a: Safety.Evaluation, b: Safety.Evaluation, outcome: O.DispatchOutcome)
    requires O.Consults(s, given, w) ==> a == b
    ensures O.Submit(s, given, w.(evaluation := a, dispatch := outcome))
         == O.Submit(s, given, w.(evaluation := b, dispatch := outcome))
  {
    var command := O.Prepare(given, w);
    var left, right := w.(evaluation := a, dispatch := outcome), w.(evaluation := b, dispatch := outcome);
    assert O.Prepare(given, left) == command && O.Prepare(given, right) == command;
    if command.Valid() && command.idempotencyKey !in s.idempotency {
      assert O.Gates(command, left) == O.Gates(command, right);
      assert O.Dispatch(O.Record(s, command, O.Validated, O.WasValidated), command, left)
          == O.Dispatch(O.Record(s, command, O.Validated, O.WasValidated), command, right);
    }
  }
}
