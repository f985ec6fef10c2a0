/** The output service that updates its tables in place. Every method is proved against the
    functions of `Output`. */
module OutputService {
  import opened Domain
  import O = Output
  import Safety

  class Service {
    var results: map<Id, O.Result>
    var idempotency: map<string, Id>

    ghost function Abs(): O.Service
      reads this
    {
      O.Service(results, idempotency)
    }

    constructor ()
      ensures Abs() == O.EMPTY
    {
      results, idempotency := map[], map[];
    }

    method Record(command: O.Command, status: O.Status, reason: O.Reason) returns (result: O.Result)
      modifies this
      ensures Abs() == O.Record(old(Abs()), command, status, reason)
      ensures result == results[command.id]
    {
      result := O.Result(command, status, reason, None, None);
      results := results[command.id := result];
      idempotency := idempotency[command.idempotencyKey := command.id];
    }

    /** Updates a record in place; an unknown identifier is not found. */
    method Transition(id: Id, status: O.Status, reason: O.Reason, at: Option<Time>) returns (found: Option<O.Result>)
      modifies this`results
      ensures id !in old(results) ==> found == None && Abs() == old(Abs())
      ensures id in old(results) ==>
                Abs() == O.Transition(old(Abs()), id, status, reason, at) && id in results && found == Some(results[id])
    {
      if id !in results {
        return None;
      }
      var result := results[id].(status := status, reason := reason);
      if status == O.Acknowledged {
        result := result.(acknowledgedAt := at);
      }
      if status == O.Succeeded {
        result := result.(reconciledAt := at);
      }
      results := results[id := result];
      found := Some(result);
    }

    /** Structural validation, idempotency, expiry, revision, safety and dispatch, in that
        order. `sent` is the command passed to the executor, if it was. */
    method Submit(given: O.Command, w: O.World) returns (returned: O.Returned, sent: Option<O.Command>)
      modifies this
      ensures O.Submission(Abs(), returned, sent) == O.Submit(old(Abs()), given, w)
    {
      sent := None;
      var command := O.Prepare(given, w);
      if !command.Valid() {
        return O.Malformed, None;
      }
      if command.idempotencyKey in idempotency {
        var id := idempotency[command.idempotencyKey];
        if id in results && O.Equivalent(results[id].command, command) {
          return O.Existing(results[id]), None;
        }
        return O.Conflict, None;
      }
      if w.now >= command.expiresAt {
        var expired := Record(command, O.Expired, O.WasExpired);
        return O.Given(expired, w.recordPublished), None;
      }
      if command.expectedRevision.Some? {
        if w.revision.None? {
          return O.RevisionUnreadable, None;
        }
        if w.revision.value != command.expectedRevision.value {
          var conflicting := Record(command, O.Rejected, O.RevisionConflict);
          return O.Given(conflicting, w.recordPublished), None;
        }
      }
      if w.evaluation.ReaderFailed? {
        return O.PolicyFailed, None;
      }
      if !w.evaluation.decision.allowed {
        var rejected := Record(command, O.Rejected, O.ByPolicy(w.evaluation.decision.reason));
        return O.Given(rejected, w.recordPublished), None;
      }
      var validated := Record(command, O.Validated, O.WasValidated);
      returned, sent := Dispatch(command, w);
    }

    method Dispatch(command: O.Command, w: O.World) returns (returned: O.Returned, sent: Option<O.Command>)
      requires command.id in results
      modifies this`results
      ensures O.Submission(Abs(), returned, sent) == O.Dispatch(old(Abs()), command, w)
    {
      if !w.recordPublished {
        return O.Given(results[command.id], false), None;
      }
      var result := Transition(command.id, O.Dispatched, O.WasDispatched, None);
      if !w.dispatchPublished {
        return O.Given(result.value, false), None;
      }
      if w.dispatch.DispatchError? {
        result := Transition(command.id, O.Failed, O.DispatchFailed, None);
      } else if !w.dispatch.accepted {
        result := Transition(command.id, O.Failed, O.AdapterRejected, None);
      } else {
        var at := w.dispatch.acknowledgedAt;
        if at == 0 {
          at := w.acknowledgementClock;
        }
        result := Transition(command.id, O.Acknowledged, O.WasAcknowledged, Some(at));
      }
      return O.Given(result.value, w.outcomePublished), Some(command);
    }

    method Reconcile(id: Id, on: bool, at: Time, recorded: bool, published: bool) returns (settled: O.Settled)
      modifies this`results
      ensures (Abs(), settled) == O.Reconcile(old(Abs()), id, on, at, recorded, published)
    {
      if at == 0 {
        return O.BadArguments;
      }
      if id !in results {
        return O.NotFound;
      }
      if results[id].status != O.Acknowledged {
        return O.InvalidTransition;
      }
      if !recorded {
        return O.RecordFailed;
      }
      var result;
      if on != results[id].command.on {
        result := Transition(id, O.Failed, O.ReportedMismatch, None);
      } else {
        result := Transition(id, O.Succeeded, O.Reconciled, Some(at));
      }
      settled := O.Settled(result.value, published);
    }

    method ExpireAcknowledged(id: Id, code: string, at: Time, published: bool) returns (settled: O.Settled)
      modifies this`results
      ensures (Abs(), settled) == O.ExpireAcknowledged(old(Abs()), id, code, at, published)
    {
      if code == "" || at == 0 {
        return O.BadArguments;
      }
      if id !in results {
        return O.NotFound;
      }
      if results[id].status != O.Acknowledged {
        return O.InvalidTransition;
      }
      if at < results[id].command.expiresAt {
        return O.TooEarly;
      }
      var result := Transition(id, O.Expired, O.ByAdapter(code), None);
      settled := O.Settled(result.value, published);
    }

    /** Submits a command for each watchdog action and stops at the first error. A time to
        live that is not positive is refused. */
    method RunWatchdogs(actions: seq<Safety.Action>, ttl: Duration, worlds: seq<O.World>)
      returns (refused: bool, all: seq<O.Returned>)
      requires |worlds| == |actions|
      modifies this
      ensures refused <==> ttl <= 0
      ensures (Abs(), all) == if refused then (old(Abs()), []) else O.SubmitActions(old(Abs()), actions, ttl, worlds)
    {
      refused, all := ttl <= 0, [];
      if refused {
        return;
      }
      ghost var expected := O.SubmitActions(Abs(), actions, ttl, worlds);
      assert actions[0..] == actions && worlds[0..] == worlds && [] + expected.1 == expected.1;
      for i := 0 to |actions|
        invariant Remains(Abs(), all, actions[i..], ttl, worlds[i..], expected)
      {
        var command := O.WatchdogCommand(actions[i], ttl, worlds[i].commandId, worlds[i].correlationId);
        RemainsStep(Abs(), all, actions[i..], ttl, worlds[i..], expected);
        assert actions[i..][1..] == actions[i + 1..] && worlds[i..][1..] == worlds[i + 1..];
        var returned, sent := Submit(command, worlds[i]);
        all := all + [returned];
        if O.IsError(returned) {
          return;
        }
      }
      assert actions[|actions|..] == [] && all + [] == all;
    }
  }

  /** What is still to be submitted leads from here to the expected end. */
  ghost predicate Remains(
      s: O.Service, all: seq<O.Returned>, actions: seq<Safety.Action>, ttl: Duration, worlds: seq<O.World>,
      expected: (O.Service, seq<O.Returned>))
    requires |worlds| == |actions|
  {
    var (s', rest) := O.SubmitActions(s, actions, ttl, worlds);
    expected == (s', all + rest)
  }

  lemma {:induction false} RemainsStep(
      s: O.Service, all: seq<O.Returned>, actions: seq<Safety.Action>, ttl: Duration, worlds: seq<O.World>,
      expected: (O.Service, seq<O.Returned>))
    requires |worlds| == |actions| > 0 && Remains(s, all, actions, ttl, worlds, expected)
    ensures var command := O.WatchdogCommand(actions[0], ttl, worlds[0].commandId, worlds[0].correlationId);
            var submission := O.Submit(s, command, worlds[0]);
            if O.IsError(submission.returned) then expected == (submission.service, all + [submission.returned])
            else Remains(submission.service, all + [submission.returned], actions[1..], ttl, worlds[1..], expected)
  {
    var command := O.WatchdogCommand(actions[0], ttl, worlds[0].commandId, worlds[0].correlationId);
    var submission := O.Submit(s, command, worlds[0]);
    if !O.IsError(submission.returned) {
      var (s', rest) := O.SubmitActions(submission.service, actions[1..], ttl, worlds[1..]);
      assert all + ([submission.returned] + rest) == (all + [submission.returned]) + rest;
    }
  }
}
