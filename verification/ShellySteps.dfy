/** What every section of a poll and every submission keeps: the log bears out what the
    records claim. */
module ShellySteps {
  import opened Domain
  import opened Shelly
  import O = Output
  import OutputRuns
  import Safety

  // ---------- Trails ----------

  /** The engine admitted this very command. */
  predicate Admits(e: Event, c: O.Command) {
    e.Judged? && e.judged == c && e.verdict.Decided? && e.verdict.decision.allowed
  }

  /** The policy admitted the command, it was sent, and the device took it: three events in
      a row, ending at position `k`. */
  predicate TakenAt(log: seq<Event>, c: O.Command, k: nat) {
    2 <= k < |log| && Admits(log[k - 2], c) && log[k - 1] == SentOut(c.id) && log[k] == Accepted(c.id)
  }

  ghost predicate Taken(log: seq<Event>, c: O.Command) {
    exists k :: TakenAt(log, c, k)
  }

  /** The reading at `m` shows the wanted output before the deadline, and at `n` the safety
      engine took that very reading. */
  predicate ConfirmedAt(log: seq<Event>, c: O.Command, m: nat, n: nat) {
    && m < n < |log|
    && log[m].Polled? && log[m].equipment == c.equipmentId && log[m].output == c.on && log[m].at < c.expiresAt
    && log[n].RecordedBySafety? && log[n].equipment == c.equipmentId && log[n].on == c.on && log[n].at == log[m].at
    && log[n].recorded
  }

  predicate ProvenAt(log: seq<Event>, c: O.Command, k: nat, m: nat, n: nat) {
    TakenAt(log, c, k) && ConfirmedAt(log, c, m, n) && k < n
  }

  ghost predicate Proven(log: seq<Event>, c: O.Command) {
    exists k, m, n :: ProvenAt(log, c, k, m, n)
  }

  ghost predicate LapsedLate(log: seq<Event>, c: O.Command) {
    exists i :: 0 <= i < |log| && log[i].Lapsed? && log[i].command == c.id && c.expiresAt <= log[i].at
  }

  /** The log bears out what a record claims. */
  ghost predicate BornOut(log: seq<Event>, r: O.Result) {
    && r.reason != O.ReportedMismatch
    && (r.status == O.Acknowledged ==> Taken(log, r.command))
    && (r.status == O.Succeeded ==> Proven(log, r.command))
    && (r.status == O.Expired && r.reason != O.WasExpired ==> LapsedLate(log, r.command))
  }

  lemma {:induction false} BornOutGrows(log: seq<Event>, longer: seq<Event>, r: O.Result)
    requires BornOut(log, r) && log <= longer
    ensures BornOut(longer, r)
  {
    if r.status == O.Acknowledged {
      var k :| TakenAt(log, r.command, k);
      assert TakenAt(longer, r.command, k);
    }
    if r.status == O.Succeeded {
      var k, m, n :| ProvenAt(log, r.command, k, m, n);
      assert ProvenAt(longer, r.command, k, m, n);
    }
    if r.status == O.Expired && r.reason != O.WasExpired {
      var i :| 0 <= i < |log| && log[i].Lapsed? && log[i].command == r.command.id && r.command.expiresAt <= log[i].at;
      assert longer[i] == log[i];
    }
  }

  /** The device took the command before position `m`. */
  ghost predicate TakenBefore(log: seq<Event>, m: nat, id: Id) {
    exists k :: 0 <= k < m && k < |log| && log[k] == Accepted(id)
  }

  // ---------- The invariant ----------

  ghost predicate AllBornOut(log: seq<Event>, results: map<Id, O.Result>) {
    forall id :: id in results ==> BornOut(log, results[id])
  }

  /** A pending entry restates its command. */
  predicate Restates(p: Pending, equipment: Id, r: O.Result) {
    && r.command.equipmentId == equipment && r.command.on == p.want && r.command.expiresAt == p.expiresAt
    && r.status.Rank() >= O.Status.Acknowledged.Rank()
  }

  /** Pending commands are on record and were taken by the device. */
  ghost predicate PendingOnRecord(pending: map<Id, Pending>, results: map<Id, O.Result>, log: seq<Event>) {
    forall equipment :: equipment in pending ==>
      && pending[equipment].id in results
      && Restates(pending[equipment], equipment, results[pending[equipment].id])
      && TakenBefore(log, |log|, pending[equipment].id)
  }

  /** Every command sent or taken has a record, and none was sent twice. */
  ghost predicate SentOnce(log: seq<Event>, results: map<Id, O.Result>) {
    && (forall i :: 0 <= i < |log| && (log[i].SentOut? || log[i].Accepted?) ==> log[i].command in results)
    && (forall i, j :: 0 <= i < j < |log| && log[i].SentOut? && log[j].SentOut? ==> log[i].command != log[j].command)
  }

  ghost predicate Core(s: System) {
    && s.service.Valid()
    && AllBornOut(s.log, s.service.results)
    && PendingOnRecord(s.pending, s.service.results, s.log)
    && SentOnce(s.log, s.service.results)
  }

  ghost predicate IsPending(s: System, id: Id) {
    exists equipment :: equipment in s.pending && s.pending[equipment].id == id
  }

  /** Pending entries stay, go, or are those of new commands. */
  ghost predicate PendingMoves(s: System, s': System) {
    forall equipment :: equipment in s'.pending ==>
      || (equipment in s.pending && s'.pending[equipment] == s.pending[equipment])
      || s'.pending[equipment].id !in s.service.results
  }

  /** No record is lost, and only that of a pending command changes. */
  ghost predicate RecordsFollow(s: System, s': System) {
    forall id :: id in s.service.results ==>
      id in s'.service.results && (s'.service.results[id] == s.service.results[id] || IsPending(s, id))
  }

  /** How any step relates what it starts from and what it leaves. */
  ghost predicate Follows(s: System, s': System) {
    s.log <= s'.log && PendingMoves(s, s') && RecordsFollow(s, s')
  }

  lemma {:induction false} FollowsTransitive(a: System, b: System, c: System)
    requires Follows(a, b) && Follows(b, c)
    ensures Follows(a, c)
  {
    forall id | id in a.service.results
      ensures id in c.service.results && (c.service.results[id] == a.service.results[id] || IsPending(a, id))
    {
      if IsPending(b, id) {
        var equipment :| equipment in b.pending && b.pending[equipment].id == id;
        assert equipment in a.pending && a.pending[equipment].id == id;
      }
    }
  }

  /** The polls under way are left alone. */
  predicate SamePolls(s: System, s': System) {
    s'.flights == s.flights && s'.marks == s.marks
  }

  /** What every section but the first leaves of the protocol. */
  ghost predicate Carries(s: System, s': System) {
    Core(s') && Follows(s, s') && SamePolls(s, s')
  }

  // ---------- Submitting ----------

  /** How log and pending table follow a new record. */
  ghost predicate Filed(s: System, s': System, r: O.Result) {
    match r.status
    case Acknowledged =>
      && r.reason != O.ReportedMismatch
      && |s'.log| == |s.log| + 3
      && s'.log == s.log + [s'.log[|s.log|], SentOut(r.command.id), Accepted(r.command.id)]
      && Admits(s'.log[|s.log|], r.command)
      && s'.pending == s.pending[r.command.equipmentId := Pending(r.command.id, r.command.on, r.command.expiresAt)]
    case Succeeded => false
    case _ =>
      && s'.pending == s.pending
      && r.reason != O.ReportedMismatch && (r.status == O.Expired ==> r.reason == O.WasExpired)
      && Mentions(s.log, s'.log, r.command.id)
  }

  /** At most a judgement is added, and after it that the command was sent. */
  predicate Mentions(log: seq<Event>, longer: seq<Event>, id: Id) {
    && log <= longer && |longer| <= |log| + 2
    && (|log| < |longer| ==> longer[|log|].Judged?)
    && (|log| + 2 == |longer| ==> longer[|log| + 1] == SentOut(id))
  }

  /** What a submission adds: nothing but a judgement, or one new record with its trail. */
  ghost predicate Adds(s: System, s': System, command: O.Command) {
    && SamePolls(s, s')
    && (if s'.service == s.service then
          && s'.pending == s.pending
          && s.log <= s'.log && |s'.log| <= |s.log| + 1 && (|s.log| < |s'.log| ==> s'.log[|s.log|].Judged?)
        else
          && command.id !in s.service.results && command.idempotencyKey !in s.service.idempotency
          && command.id in s'.service.results && s'.service.results[command.id].command == command
          && s'.service == OutputRuns.Put(s.service, s'.service.results[command.id])
          && Filed(s, s', s'.service.results[command.id]))
  }

  lemma {:induction false} SubmittedStatus(s: O.Service, given: O.Command, w: O.World)
    requires O.Submit(s, given, w).returned.Given?
    ensures var submission := O.Submit(s, given, w);
            var r := submission.returned.result;
            && r.status != O.Succeeded && r.reason != O.ReportedMismatch
            && (r.status == O.Expired ==> r.reason == O.WasExpired)
            && (r.status == O.Acknowledged <==> submission.sent.Some? && w.dispatch.Answered? && w.dispatch.accepted)
  {
  }

  /** What is sent is the prepared command, past every gate, the policy's among them. */
  lemma {:induction false} SentIsAllowed(s: O.Service, given: O.Command, w: O.World)
    ensures var submission := O.Submit(s, given, w);
            submission.sent.Some? ==>
              && submission.sent.value == O.Prepare(given, w) && O.Consults(s, given, w)
              && w.evaluation.Decided? && w.evaluation.decision.allowed
  {
  }

  lemma {:induction false} NothingSentUnlessGiven(s: O.Service, given: O.Command, w: O.World)
    ensures !O.Submit(s, given, w).returned.Given? ==> O.Submit(s, given, w).sent.None?
  {
  }

  /** The consulted state differs from the one before in engine and log only. */
  predicate Consulted(s: System, s1: System, command: O.Command, asked: bool, verdict: Safety.Evaluation) {
    && s1 == s.(engine := s1.engine, log := s1.log)
    && (if asked then
          |s1.log| == |s.log| + 1 && s1.log == s.log + [s1.log[|s.log|]]
          && s1.log[|s.log|].Judged? && s1.log[|s.log|].judged == command && s1.log[|s.log|].verdict == verdict
        else s1.log == s.log)
  }

  lemma {:induction false} ConsultShape(c: Config, s: System, given: O.Command, w: SubmitWorld)
    ensures Consulted(s, Consult(c, s, given, w), O.Prepare(given, w.service),
                      O.Consults(s.service, given, w.service), WorldOf(c, s, given, w).evaluation)
  {
  }

  lemma {:induction false} DeliveredFiled(
      s: System, s1: System, submission: O.Submission, outcome: O.DispatchOutcome, r: O.Result, asked: bool, verdict: Safety.Evaluation)
    requires Consulted(s, s1, r.command, asked, verdict)
    requires r.status != O.Succeeded && r.reason != O.ReportedMismatch && (r.status == O.Expired ==> r.reason == O.WasExpired)
    requires r.status == O.Acknowledged <==> submission.sent.Some? && outcome.Answered? && outcome.accepted
    requires submission.sent.Some? ==>
               submission.sent.value == r.command && asked && verdict.Decided? && verdict.decision.allowed
    ensures Filed(s, Deliver(s1, submission, outcome), r)
  {
  }

  lemma {:induction false} SubmitShape(c: Config, s: System, given: O.Command, w: SubmitWorld)
    requires s.service.Valid() && OutputRuns.Fresh(s.service, O.Prepare(given, w.service))
    ensures Adds(s, Submit(c, s, given, w), O.Prepare(given, w.service))
  {
    ConsultShape(c, s, given, w);
    DeliverShape(c, s, Consult(c, s, given, w), given, w, WorldOf(c, s, given, w));
  }

  lemma {:induction false} DeliverShape(c: Config, s: System, s1: System, given: O.Command, w: SubmitWorld, world: O.World)
    requires s.service.Valid() && OutputRuns.Fresh(s.service, O.Prepare(given, w.service))
    requires world == w.service.(evaluation := world.evaluation, dispatch := Outcome(c, O.Prepare(given, w.service), w))
    requires Consulted(s, s1, O.Prepare(given, w.service), O.Consults(s.service, given, w.service), world.evaluation)
    ensures Adds(s, Deliver(s1, O.Submit(s.service, given, world), Outcome(c, O.Prepare(given, w.service), w)),
                 O.Prepare(given, w.service))
  {
    var command, submission := O.Prepare(given, w.service), O.Submit(s.service, given, world);
    SubmissionForm(s.service, given, w.service, world);
    if submission.returned.Given? {
      DeliveredFiled(s, s1, submission, Outcome(c, command, w), submission.returned.result,
                     O.Consults(s.service, given, w.service), world.evaluation);
    }
  }

  /** What the service makes of a submission, as far as the adapter depends on it. */
  lemma {:induction false} SubmissionForm(s: O.Service, given: O.Command, w: O.World, world: O.World)
    requires s.Valid() && OutputRuns.Fresh(s, O.Prepare(given, w))
    requires world == w.(evaluation := world.evaluation, dispatch := world.dispatch)
    ensures var submission, command := O.Submit(s, given, world), O.Prepare(given, w);
            if submission.returned.Given? then
              var r := submission.returned.result;
              && r.command == command && submission.service == OutputRuns.Put(s, r)
              && command.id !in s.results && command.idempotencyKey !in s.idempotency
              && r.status != O.Succeeded && r.reason != O.ReportedMismatch
              && (r.status == O.Expired ==> r.reason == O.WasExpired)
              && (r.status == O.Acknowledged <==> submission.sent.Some? && world.dispatch.Answered? && world.dispatch.accepted)
              && (submission.sent.Some? ==>
                    && submission.sent.value == command && O.Consults(s, given, w)
                    && world.evaluation.Decided? && world.evaluation.decision.allowed)
            else submission.service == s && submission.sent.None?
  {
    assert O.Prepare(given, world) == O.Prepare(given, w);
    OutputRuns.SubmitFiles(s, given, world);
    SentIsAllowed(s, given, world);
    NothingSentUnlessGiven(s, given, world);
    if O.Submit(s, given, world).returned.Given? {
      SubmittedStatus(s, given, world);
    }
  }

  lemma {:induction false} FiledBornOut(s: System, s': System, r: O.Result)
    requires AllBornOut(s.log, s.service.results) && r.command.id !in s.service.results
    requires s'.service == OutputRuns.Put(s.service, r) && Filed(s, s', r)
    ensures AllBornOut(s'.log, s'.service.results)
  {
    assert s.log <= s'.log;
    forall id | id in s.service.results
      ensures BornOut(s'.log, s.service.results[id])
    {
      BornOutGrows(s.log, s'.log, s.service.results[id]);
    }
    if r.status == O.Acknowledged {
      assert TakenAt(s'.log, r.command, |s.log| + 2);
    }
  }

  lemma {:induction false} FiledSentOnce(s: System, s': System, r: O.Result)
    requires SentOnce(s.log, s.service.results) && r.command.id !in s.service.results
    requires s'.service == OutputRuns.Put(s.service, r) && Filed(s, s', r)
    ensures SentOnce(s'.log, s'.service.results)
  {
    forall i | 0 <= i < |s'.log| && (s'.log[i].SentOut? || s'.log[i].Accepted?)
      ensures s'.log[i].command in s'.service.results
      ensures i < |s.log| ==> s'.log[i].command != r.command.id
      ensures i >= |s.log| ==> s'.log[i].command == r.command.id && (s'.log[i].SentOut? ==> i == |s.log| + 1)
    {
      if i < |s.log| {
        assert s'.log[i] == s.log[i];
      }
    }
    forall i, j | 0 <= i < j < |s'.log| && s'.log[i].SentOut? && s'.log[j].SentOut?
      ensures s'.log[i].command != s'.log[j].command
    {
      if j < |s.log| {
        assert s'.log[i] == s.log[i] && s'.log[j] == s.log[j];
      }
    }
  }

  lemma {:induction false} TakenStays(log: seq<Event>, longer: seq<Event>, m: nat, n: nat, id: Id)
    requires log <= longer && TakenBefore(log, m, id) && m <= n
    ensures TakenBefore(longer, n, id)
  {
    var k :| 0 <= k < m && k < |log| && log[k] == Accepted(id);
    assert longer[k] == Accepted(id);
  }

  lemma {:induction false} FiledPending(s: System, s': System, r: O.Result)
    requires PendingOnRecord(s.pending, s.service.results, s.log) && r.command.id !in s.service.results
    requires s'.service == OutputRuns.Put(s.service, r) && Filed(s, s', r)
    ensures PendingOnRecord(s'.pending, s'.service.results, s'.log)
  {
    assert s.log <= s'.log;
    forall equipment | equipment in s.pending
      ensures TakenBefore(s'.log, |s'.log|, s.pending[equipment].id)
    {
      TakenStays(s.log, s'.log, |s.log|, |s'.log|, s.pending[equipment].id);
    }
    if r.status == O.Acknowledged {
      assert s'.log[|s.log| + 2] == Accepted(r.command.id);
    }
  }

  lemma {:induction false} FiledFollows(s: System, s': System, r: O.Result)
    requires r.command.id !in s.service.results
    requires s'.service == OutputRuns.Put(s.service, r) && Filed(s, s', r)
    ensures Follows(s, s')
  {
  }

  /** The log grows by an event that neither sends nor takes anything. */
  lemma {:induction false} LogGrows(s: System, s': System)
    requires Core(s) && s'.service == s.service && s'.pending == s.pending
    requires s.log <= s'.log && |s'.log| <= |s.log| + 1
    requires |s.log| < |s'.log| ==> !s'.log[|s.log|].SentOut? && !s'.log[|s.log|].Accepted?
    ensures Core(s') && Follows(s, s')
  {
    forall id | id in s.service.results
      ensures BornOut(s'.log, s.service.results[id])
    {
      BornOutGrows(s.log, s'.log, s.service.results[id]);
    }
    forall equipment | equipment in s.pending
      ensures TakenBefore(s'.log, |s'.log|, s.pending[equipment].id)
    {
      TakenStays(s.log, s'.log, |s.log|, |s'.log|, s.pending[equipment].id);
    }
    forall i | 0 <= i < |s'.log| && (s'.log[i].SentOut? || s'.log[i].Accepted?)
      ensures i < |s.log| && s'.log[i] == s.log[i]
    {
    }
  }

  /** An entry that was not pending before is that of the given command. */
  ghost predicate PendingFrom(s: System, s': System, command: O.Command) {
    forall equipment :: equipment in s'.pending ==>
      || (equipment in s.pending && s'.pending[equipment] == s.pending[equipment])
      || (&& s'.pending[equipment].id == command.id && command.id in s'.service.results
          && s'.service.results[command.id].command == command)
  }

  /** What a step keeps that may submit one command. */
  ghost predicate Keeps(s: System, s': System, command: O.Command) {
    && Core(s') && Follows(s, s') && SamePolls(s, s') && PendingFrom(s, s', command)
    && s'.service.results.Keys <= s.service.results.Keys + {command.id}
    && (forall id :: id in s'.service.results && s'.service.results[id].status == O.Succeeded ==>
          id in s.service.results && s.service.results[id].status == O.Succeeded)
  }

  lemma {:induction false} AddsKeeps(s: System, s': System, command: O.Command)
    requires Core(s) && Adds(s, s', command)
    ensures Keeps(s, s', command)
  {
    if s'.service == s.service {
      LogGrows(s, s');
    } else {
      var r := s'.service.results[command.id];
      OutputRuns.PutOnlyAdds(s.service, r);
      FiledBornOut(s, s', r);
      FiledSentOnce(s, s', r);
      FiledPending(s, s', r);
      FiledFollows(s, s', r);
    }
  }

  lemma {:induction false} SubmitKeeps(c: Config, s: System, given: O.Command, w: SubmitWorld)
    requires Core(s) && OutputRuns.Fresh(s.service, O.Prepare(given, w.service))
    ensures Keeps(s, Submit(c, s, given, w), O.Prepare(given, w.service))
  {
    SubmitShape(c, s, given, w);
    AddsKeeps(s, Submit(c, s, given, w), O.Prepare(given, w.service));
  }

  /** The safe response as submitted. */
  function Response(ep: Endpoint, at: Time, w: SubmitWorld): O.Command {
    O.Prepare(SafeCommand(ep, at), w.service)
  }

  lemma {:induction false} FailureKeeps(c: Config, s: System, ep: Endpoint, active: bool, at: Time, w: SubmitWorld)
    requires Core(s) && w.service.commandId !in s.service.results
    ensures Keeps(s, Failure(c, s, ep, active, at, w), Response(ep, at, w))
  {
    var s1 := s.(failing := s.failing[ep.id := active]);
    if Failure(c, s, ep, active, at, w) == Submit(c, s1, SafeCommand(ep, at), w) {
      SubmitKeeps(c, s1, SafeCommand(ep, at), w);
      KeepsFromAlike(s, s1, Submit(c, s1, SafeCommand(ep, at), w), Response(ep, at, w));
    }
  }

  lemma {:induction false} KeepsFromAlike(s: System, s1: System, s': System, command: O.Command)
    requires s1 == s.(failing := s1.failing) && Keeps(s1, s', command)
    ensures Keeps(s, s', command)
  {
    forall id | IsPending(s1, id)
      ensures IsPending(s, id)
    {
      var equipment :| equipment in s1.pending && s1.pending[equipment].id == id;
      assert equipment in s.pending;
    }
  }

  // ---------- Settling ----------

  /** What is replaced is the record of a pending command, by a later one of the same command
      that the log, one event longer, bears out. */
  ghost predicate Updates(s: System, s': System, equipment: Id, r: O.Result) {
    && equipment in s.pending && s.pending[equipment].id in s.service.results
    && OutputRuns.MovesForward(s.service.results[s.pending[equipment].id], r)
    && s.log <= s'.log && |s'.log| == |s.log| + 1
    && !s'.log[|s.log|].SentOut? && !s'.log[|s.log|].Accepted? && BornOut(s'.log, r)
    && s'.service == s.service.(results := s.service.results[s.pending[equipment].id := r])
    && (s'.pending == s.pending || s'.pending == s.pending - {equipment})
  }

  lemma {:induction false} UpdateKeeps(s: System, s': System, equipment: Id, r: O.Result)
    requires Core(s) && Updates(s, s', equipment, r)
    ensures Core(s') && Follows(s, s') && s'.service.results.Keys == s.service.results.Keys
  {
    var longer := s.(log := s'.log);
    LogGrows(s, longer);
    UpdateCore(longer, s', s.pending[equipment].id, r);
    UpdateFollows(s, s', equipment, r);
  }

  lemma {:induction false} UpdateFollows(s: System, s': System, equipment: Id, r: O.Result)
    requires Updates(s, s', equipment, r)
    ensures Follows(s, s')
  {
    assert IsPending(s, s.pending[equipment].id);
  }

  lemma {:induction false} UpdateCore(s: System, s': System, id: Id, r: O.Result)
    requires Core(s) && id in s.service.results && OutputRuns.MovesForward(s.service.results[id], r)
    requires s'.log == s.log && BornOut(s.log, r) && s'.service == s.service.(results := s.service.results[id := r])
    requires forall equipment :: equipment in s'.pending ==> equipment in s.pending && s'.pending[equipment] == s.pending[equipment]
    ensures Core(s') && s'.service.results.Keys == s.service.results.Keys
  {
    OutputRuns.UpdateAdvances(s.service, id, r);
    UpdatePending(s, s', id, r);
  }

  lemma {:induction false} UpdatePending(s: System, s': System, id: Id, r: O.Result)
    requires PendingOnRecord(s.pending, s.service.results, s'.log)
    requires id in s.service.results && OutputRuns.MovesForward(s.service.results[id], r)
    requires s'.service.results == s.service.results[id := r]
    requires forall equipment :: equipment in s'.pending ==> equipment in s.pending && s'.pending[equipment] == s.pending[equipment]
    ensures PendingOnRecord(s'.pending, s'.service.results, s'.log)
  {
  }

  /** No command becomes succeeded. */
  ghost predicate ConfirmsNone(s: System, s': System) {
    forall id :: id in s'.service.results && s'.service.results[id].status == O.Succeeded ==>
      id in s.service.results && s.service.results[id].status == O.Succeeded
  }

  lemma {:induction false} ExpireShape(s: System, equipment: Id, at: Time, bus: Bus)
    requires s.service.Valid() && equipment in s.pending
    ensures var s' := Expire(s, equipment, at, bus);
            && SamePolls(s, s')
            && (s' == s || (&& s.pending[equipment].id in s'.service.results
                            && Updates(s, s', equipment, s'.service.results[s.pending[equipment].id])
                            && s'.service.results[s.pending[equipment].id].status == O.Expired))
  {
    var id, s' := s.pending[equipment].id, Expire(s, equipment, at, bus);
    if s' != s {
      assert s'.log[|s.log|] == Lapsed(id, at) && s'.service.results[id].command.id == id;
    }
  }

  lemma {:induction false} ExpireKeeps(s: System, equipment: Id, at: Time, bus: Bus)
    requires Core(s) && equipment in s.pending
    ensures var s' := Expire(s, equipment, at, bus);
            && Core(s') && Follows(s, s') && SamePolls(s, s') && s'.service.results.Keys == s.service.results.Keys
            && ConfirmsNone(s, s')
  {
    ExpireShape(s, equipment, at, bus);
    ExpiredKeeps(s, Expire(s, equipment, at, bus), equipment);
  }

  lemma {:induction false} ExpiredKeeps(s: System, s': System, equipment: Id)
    requires Core(s) && equipment in s.pending && SamePolls(s, s')
    requires s' == s || (&& s.pending[equipment].id in s'.service.results
                         && Updates(s, s', equipment, s'.service.results[s.pending[equipment].id])
                         && s'.service.results[s.pending[equipment].id].status == O.Expired)
    ensures Core(s') && Follows(s, s') && s'.service.results.Keys == s.service.results.Keys && ConfirmsNone(s, s')
  {
    if s' == s {
      LogGrows(s, s);
    } else {
      UpdateKeeps(s, s', equipment, s'.service.results[s.pending[equipment].id]);
    }
  }

  lemma {:induction false} ExpireIfNeededKeeps(
      c: Config, s: System, ep: Endpoint, at: Time, force: bool, w: SubmitWorld, bus: Bus)
    requires Core(s) && w.service.commandId !in s.service.results
    ensures var s' := ExpireIfNeeded(c, s, ep, at, force, w, bus);
            Core(s') && Follows(s, s') && SamePolls(s, s') && ConfirmsNone(s, s')
  {
    if ep.equipmentId !in s.pending || (!force && at < s.pending[ep.equipmentId].expiresAt) {
      LogGrows(s, s);
    } else {
      var s1 := Expire(s, ep.equipmentId, at, bus);
      ExpireKeeps(s, ep.equipmentId, at, bus);
      FailureKeeps(c, s1, ep, true, at, w);
      KeepsAfter(s, s1, Failure(c, s1, ep, true, at, w), Response(ep, at, w));
    }
  }

  lemma {:induction false} KeepsAfter(s: System, s1: System, s': System, command: O.Command)
    requires Follows(s, s1) && SamePolls(s, s1) && ConfirmsNone(s, s1) && Keeps(s1, s', command)
    ensures Core(s') && Follows(s, s') && SamePolls(s, s') && ConfirmsNone(s, s')
  {
    FollowsTransitive(s, s1, s');
  }

  /** A reading of the wanted output in time, recorded with the safety engine, proves what
      the device has taken. */
  lemma {:induction false} ReadingProves(log: seq<Event>, e: Event, c: O.Command, m: nat)
    requires m < |log| && log[m].Polled? && Taken(log, c)
    requires log[m].equipment == c.equipmentId && log[m].output == c.on && log[m].at < c.expiresAt
    requires e.RecordedBySafety? && e.equipment == c.equipmentId && e.on == c.on && e.at == log[m].at && e.recorded
    ensures Proven(log + [e], c)
  {
    var k :| TakenAt(log, c, k);
    assert (log + [e])[|log|] == e;
    assert ProvenAt(log + [e], c, k, m, |log|);
  }

  /** The safety engine takes the matching reading of the pending command. */
  predicate Recorded(s: System, equipment: Id, output: bool, at: Time)
    requires equipment in s.pending
  {
    O.Reports(s.service, s.pending[equipment].id, at) && Safety.RecordReported(s.engine, equipment, output, at).1
  }

  lemma {:induction false} ReconcileForm(s: System, equipment: Id, output: bool, at: Time, bus: Bus)
    requires equipment in s.pending && s.pending[equipment].id in s.service.results
    requires Restates(s.pending[equipment], equipment, s.service.results[s.pending[equipment].id])
    requires output == s.pending[equipment].want
    ensures var s', id := Reconcile(s, equipment, output, at, bus), s.pending[equipment].id;
            && SamePolls(s, s')
            && (if Recorded(s, equipment, output, at) then
                  && id in s'.service.results && s'.service == s.service.(results := s.service.results[id := s'.service.results[id]])
                  && s'.service.results[id].command == s.service.results[id].command
                  && s'.service.results[id].status == O.Succeeded && s'.service.results[id].reason == O.Reconciled
                  && s'.log == s.log + [RecordedBySafety(s.engine, equipment, output, at, true)]
                  && s'.engine == Safety.RecordReported(s.engine, equipment, output, at).0
                  && s'.pending == (if bus.reconcilePublished then s.pending - {equipment} else s.pending)
                else
                  && s'.service == s.service && s'.pending == s.pending && s.log <= s'.log && |s'.log| <= |s.log| + 1
                  && (|s.log| < |s'.log| ==> s'.log[|s.log|].RecordedBySafety?))
  {
  }

  lemma {:induction false} ReconcileUpdates(s: System, s': System, equipment: Id, at: Time, m: nat, r: O.Result, r': O.Result)
    requires equipment in s.pending && s.pending[equipment].id == r.command.id && r.command.equipmentId == equipment
    requires r.command.id in s.service.results && s.service.results[r.command.id] == r && BornOut(s.log, r)
    requires m < |s.log| && s.log[m] == Polled(equipment, r.command.on, at) && at < r.command.expiresAt
    requires r.status == O.Acknowledged && r'.command == r.command && r'.status == O.Succeeded && r'.reason == O.Reconciled
    requires s'.service == s.service.(results := s.service.results[r.command.id := r'])
    requires s'.log == s.log + [RecordedBySafety(s.engine, equipment, r.command.on, at, true)]
    requires s'.pending == s.pending || s'.pending == s.pending - {equipment}
    ensures Updates(s, s', equipment, r')
  {
    ReadingBearsOut(s.log, RecordedBySafety(s.engine, equipment, r.command.on, at, true), r', m);
  }

  lemma {:induction false} ReadingBearsOut(log: seq<Event>, e: Event, r: O.Result, m: nat)
    requires r.status == O.Succeeded && r.reason == O.Reconciled
    requires m < |log| && log[m].Polled? && Taken(log, r.command)
    requires log[m].equipment == r.command.equipmentId && log[m].output == r.command.on && log[m].at < r.command.expiresAt
    requires e.RecordedBySafety? && e.equipment == r.command.equipmentId && e.on == r.command.on && e.at == log[m].at && e.recorded
    ensures BornOut(log + [e], r)
  {
    ReadingProves(log, e, r.command, m);
  }

  lemma {:induction false} ReconcileKeeps(s: System, equipment: Id, output: bool, at: Time, bus: Bus, m: nat)
    requires Core(s) && equipment in s.pending
    requires m < |s.log| && s.log[m] == Polled(equipment, output, at)
    requires output == s.pending[equipment].want && at < s.pending[equipment].expiresAt
    ensures var s' := Reconcile(s, equipment, output, at, bus);
            Core(s') && Follows(s, s') && SamePolls(s, s') && s'.service.results.Keys == s.service.results.Keys
  {
    var id, s' := s.pending[equipment].id, Reconcile(s, equipment, output, at, bus);
    ReconcileForm(s, equipment, output, at, bus);
    if Recorded(s, equipment, output, at) {
      ReconcileUpdates(s, s', equipment, at, m, s.service.results[id], s'.service.results[id]);
      UpdateKeeps(s, s', equipment, s'.service.results[id]);
    } else {
      LogGrows(s, s');
    }
  }

  // ---------- Polls under way ----------

  predicate HasReading(f: Flight) {
    f.phase == Fetched || f.phase == Looked || f.phase == Reported
  }

  /** The mark points at the flight's reading, and tells the commands that the device had
      taken by then from those it took later. */
  ghost predicate Fits(s: System, f: Flight, mark: Mark) {
    && mark.reading < |s.log|
    && s.log[mark.reading] == Polled(f.endpoint.equipmentId, f.output, f.now)
    && (mark.was.Some? ==> mark.was.value.id in s.service.results)
    && (f.endpoint.equipmentId in s.pending ==>
          var p := s.pending[f.endpoint.equipmentId];
          TakenBefore(s.log, mark.reading, p.id) <==> mark.was == Some(p))
  }

  ghost predicate Marked(s: System) {
    forall key :: key in s.flights && HasReading(s.flights[key]) ==>
      key in s.marks && Fits(s, s.flights[key], s.marks[key])
  }

  ghost predicate Invariant(s: System) {
    Core(s) && Marked(s)
  }

  lemma {:induction false} TakenBeforeFixed(log: seq<Event>, longer: seq<Event>, m: nat, id: Id)
    requires log <= longer && m <= |log|
    ensures TakenBefore(log, m, id) <==> TakenBefore(longer, m, id)
  {
    if TakenBefore(longer, m, id) {
      var k :| 0 <= k < m && k < |longer| && longer[k] == Accepted(id);
      assert log[k] == Accepted(id);
    }
    if TakenBefore(log, m, id) {
      TakenStays(log, longer, m, m, id);
    }
  }

  lemma {:induction false} FitsStays(s: System, s': System, f: Flight, f': Flight, mark: Mark)
    requires SentOnce(s.log, s.service.results) && Follows(s, s') && Fits(s, f, mark)
    requires f'.endpoint == f.endpoint && f'.output == f.output && f'.now == f.now
    ensures Fits(s', f', mark)
  {
    var equipment := f.endpoint.equipmentId;
    if equipment in s'.pending {
      var p := s'.pending[equipment];
      TakenBeforeFixed(s.log, s'.log, mark.reading, p.id);
      if p.id !in s.service.results {
        assert !TakenBefore(s.log, mark.reading, p.id);
      }
    }
  }

  /** Flights go on or end, with the same reading. */
  ghost predicate FlightsContinue(s: System, s': System) {
    && s'.marks == s.marks
    && (forall key :: key in s'.flights && HasReading(s'.flights[key]) ==>
          && key in s.flights && HasReading(s.flights[key])
          && s'.flights[key].endpoint == s.flights[key].endpoint
          && s'.flights[key].output == s.flights[key].output && s'.flights[key].now == s.flights[key].now)
  }

  lemma {:induction false} MarkedStays(s: System, s': System)
    requires Core(s) && Marked(s) && Follows(s, s') && FlightsContinue(s, s')
    ensures Marked(s')
  {
    forall key | key in s'.flights && HasReading(s'.flights[key])
      ensures key in s'.marks && Fits(s', s'.flights[key], s'.marks[key])
    {
      FitsStays(s, s', s.flights[key], s'.flights[key], s.marks[key]);
    }
  }

  lemma {:induction false} ReadKeeps(s: System, ep: Endpoint, config: ConfigReply, status: StatusReply, now: Time)
    requires Invariant(s)
    ensures var s' := Read(s, ep, config, status, now); Invariant(s') && Follows(s, s')
  {
    var s' := Read(s, ep, config, status, now);
    if ep.id !in s.flights && Answers(ep, config, status) {
      TookReading(s, s', ep, status, now);
    } else {
      LogGrows(s, s');
      MarkedStays(s, s');
    }
  }

  lemma {:induction false} TookReading(s: System, s': System, ep: Endpoint, status: StatusReply, now: Time)
    requires Invariant(s) && status.SwitchStatus? && ep.id !in s.flights
    requires s' == s.(
      flights := s.flights[ep.id := Flight(ep, Fetched, now, status.output, status.faulty, None, false)],
      marks := s.marks[ep.id := Mark(|s.log|, Lookup(s.pending, ep.equipmentId))],
      log := s.log + [Polled(ep.equipmentId, status.output, now)])
    ensures Invariant(s') && Follows(s, s')
  {
    LogGrows(s, s');
    ReadingFits(s, s', ep, status, now);
    forall key | key in s.flights && HasReading(s.flights[key])
      ensures key in s'.marks && Fits(s', s'.flights[key], s'.marks[key])
    {
      FitsStays(s, s', s.flights[key], s.flights[key], s.marks[key]);
    }
  }

  lemma {:induction false} ReadingFits(s: System, s': System, ep: Endpoint, status: StatusReply, now: Time)
    requires Core(s) && status.SwitchStatus? && s'.service == s.service && s'.pending == s.pending
    requires s'.log == s.log + [Polled(ep.equipmentId, status.output, now)]
    ensures Fits(s', Flight(ep, Fetched, now, status.output, status.faulty, None, false),
                 Mark(|s.log|, Lookup(s.pending, ep.equipmentId)))
  {
    if ep.equipmentId in s.pending {
      TakenStays(s.log, s'.log, |s.log|, |s.log|, s.pending[ep.equipmentId].id);
    }
  }

  lemma {:induction false} LookKeeps(s: System, key: Id)
    requires Invariant(s)
    ensures Invariant(Look(s, key)) && Follows(s, Look(s, key))
  {
    FlightsMoveOn(s, Look(s, key));
  }

  /** Nothing but the flights changes, and they keep their readings. */
  lemma {:induction false} FlightsMoveOn(s: System, s': System)
    requires Invariant(s) && s' == s.(flights := s'.flights) && FlightsContinue(s, s')
    ensures Invariant(s') && Follows(s, s')
  {
    LogGrows(s, s');
    MarkedStays(s, s');
  }

  lemma {:induction false} ReportKeeps(c: Config, s: System, f: Flight, stored: bool, w: SubmitWorld)
    requires Core(s) && w.service.commandId !in s.service.results
    ensures Keeps(s, Report(c, s, f, stored, w), Response(f.endpoint, f.now, w))
  {
    LogGrows(s, s);
    FailureKeeps(c, s, f.endpoint, true, f.now, w);
    FailureKeeps(c, s, f.endpoint, false, f.now, w);
  }

  /** Where the third section takes a flight. */
  function Handed(f: Flight): Flight {
    if f.phase == Unreached then f.(phase := Signalled) else if f.phase == Looked then f.(phase := Reported) else f
  }

  lemma {:induction false} HandOverKeeps(c: Config, s: System, key: Id, stored: bool, w: SubmitWorld)
    requires Invariant(s) && w.service.commandId !in s.service.results
    ensures var s' := HandOver(c, s, key, stored, w);
            && Invariant(s') && Follows(s, s') && ConfirmsNone(s, s') && s'.marks == s.marks
            && s'.service.results.Keys <= s.service.results.Keys + {w.service.commandId}
            && (key in s.flights ==>
                  && s'.flights == s.flights[key := Handed(s.flights[key])]
                  && PendingFrom(s, s', Response(s.flights[key].endpoint, s.flights[key].now, w)))
  {
    if key in s.flights {
      var f, s1 := s.flights[key], s.(flights := s.flights[key := Handed(s.flights[key])]);
      LogGrows(s, s1);
      if f.phase == Unreached {
        FailureKeeps(c, s1, f.endpoint, true, f.now, w);
      } else if f.phase == Looked {
        ReportKeeps(c, s1, f, stored, w);
      }
      HandedOver(s, s1, HandOver(c, s, key, stored, w), Response(f.endpoint, f.now, w), key);
    } else {
      LogGrows(s, s);
    }
  }

  lemma {:induction false} HandedOver(s: System, s1: System, s': System, command: O.Command, key: Id)
    requires Invariant(s) && key in s.flights
    requires s1 == s.(flights := s.flights[key := Handed(s.flights[key])])
    requires s' == s == s1 || (s.flights[key].phase in {Unreached, Looked} && Keeps(s1, s', command))
    ensures Invariant(s') && Follows(s, s') && ConfirmsNone(s, s')
    ensures s'.marks == s.marks && s'.flights == s.flights[key := Handed(s.flights[key])]
    ensures s'.service.results.Keys <= s.service.results.Keys + {command.id} && PendingFrom(s, s', command)
  {
    LogGrows(s, s1);
    if s' != s {
      FollowsTransitive(s, s1, s');
    }
    MarkedStays(s, s');
  }

  lemma {:induction false} ConfirmKeeps(c: Config, s: System, f: Flight, w: SubmitWorld, bus: Bus, m: nat)
    requires Core(s) && w.service.commandId !in s.service.results
    requires m < |s.log| && s.log[m] == Polled(f.endpoint.equipmentId, f.output, f.now)
    ensures Carries(s, Confirm(c, s, f, w, bus))
  {
    var equipment := f.endpoint.equipmentId;
    if equipment in s.pending && s.pending[equipment].expiresAt <= f.now {
      ConfirmExpires(c, s, f, w, bus);
    } else if equipment in s.pending && f.output == s.pending[equipment].want {
      ConfirmMatches(c, s, f, w, bus, m);
    } else {
      ConfirmWaits(c, s, f, w, bus);
    }
  }

  lemma {:induction false} ConfirmExpires(c: Config, s: System, f: Flight, w: SubmitWorld, bus: Bus)
    requires Core(s) && w.service.commandId !in s.service.results
    requires f.endpoint.equipmentId in s.pending && s.pending[f.endpoint.equipmentId].expiresAt <= f.now
    ensures Carries(s, Confirm(c, s, f, w, bus))
  {
    ExpiryCarries(c, s, f.endpoint, f.now, false, w, bus);
  }

  lemma {:induction false} ConfirmMatches(c: Config, s: System, f: Flight, w: SubmitWorld, bus: Bus, m: nat)
    requires Core(s) && m < |s.log| && s.log[m] == Polled(f.endpoint.equipmentId, f.output, f.now)
    requires f.endpoint.equipmentId in s.pending && f.now < s.pending[f.endpoint.equipmentId].expiresAt
    requires f.output == s.pending[f.endpoint.equipmentId].want
    ensures Carries(s, Confirm(c, s, f, w, bus))
  {
    MatchCarries(s, f.endpoint.equipmentId, f.output, f.now, bus, m);
  }

  lemma {:induction false} ConfirmWaits(c: Config, s: System, f: Flight, w: SubmitWorld, bus: Bus)
    requires Core(s)
    requires f.endpoint.equipmentId in s.pending ==>
               f.now < s.pending[f.endpoint.equipmentId].expiresAt && f.output != s.pending[f.endpoint.equipmentId].want
    ensures Carries(s, Confirm(c, s, f, w, bus))
  {
    NothingCarries(s);
  }

  lemma {:induction false} ExpiryCarries(c: Config, s: System, ep: Endpoint, at: Time, force: bool, w: SubmitWorld, bus: Bus)
    requires Core(s) && w.service.commandId !in s.service.results
    ensures Carries(s, ExpireIfNeeded(c, s, ep, at, force, w, bus))
  {
    ExpireIfNeededKeeps(c, s, ep, at, force, w, bus);
  }

  lemma {:induction false} MatchCarries(s: System, equipment: Id, output: bool, at: Time, bus: Bus, m: nat)
    requires Core(s) && equipment in s.pending && m < |s.log| && s.log[m] == Polled(equipment, output, at)
    requires output == s.pending[equipment].want && at < s.pending[equipment].expiresAt
    ensures Carries(s, Reconcile(s, equipment, output, at, bus))
  {
    ReconcileKeeps(s, equipment, output, at, bus, m);
  }

  lemma {:induction false} NothingCarries(s: System)
    requires Core(s)
    ensures Carries(s, s)
  {
    LogGrows(s, s);
  }

  lemma {:induction false} SettleKeeps(c: Config, s: System, key: Id, w: SubmitWorld, bus: Bus)
    requires Invariant(s) && w.service.commandId !in s.service.results
    ensures Invariant(Settle(c, s, key, w, bus)) && Follows(s, Settle(c, s, key, w, bus))
  {
    if key in s.flights && s.flights[key].phase in {Signalled, Reported} {
      var f, over, s' := s.flights[key], s.(flights := s.flights - {key}), Settle(c, s, key, w, bus);
      LogGrows(s, over);
      if f.phase == Signalled {
        ExpiryCarries(c, over, f.endpoint, f.now, true, w, bus);
      } else {
        ConfirmKeeps(c, over, f, w, bus, s.marks[key].reading);
      }
      SettledOver(s, over, s', key);
    } else {
      LogGrows(s, s);
    }
  }

  lemma {:induction false} SettledOver(s: System, over: System, s': System, key: Id)
    requires Invariant(s) && over == s.(flights := s.flights - {key})
    requires Carries(over, s')
    ensures Invariant(s') && Follows(s, s')
  {
    LogGrows(s, over);
    FollowsTransitive(s, over, s');
    MarkedStays(s, s');
  }
}
