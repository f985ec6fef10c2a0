/** Whole runs of the output service. */
module OutputRuns {
  import opened Domain
  import opened Output
  import Safety
  import Profile
  import Watchdogs

  datatype Op =
    | SubmitOp(command: Command, world: World)
    | ReconcileOp(reconciled: Id, on: bool, at: Time, recorded: bool, published: bool)
    | ExpireOp(expired: Id, code: string, at: Time, published: bool)

  function Step(s: Service, op: Op): Service {
    match op
    case SubmitOp(command, w) => Submit(s, command, w).service
    case ReconcileOp(id, on, at, recorded, published) => Reconcile(s, id, on, at, recorded, published).0
    case ExpireOp(id, code, at, published) => ExpireAcknowledged(s, id, code, at, published).0
  }

  function Run(s: Service, ops: seq<Op>): Service
    decreases |ops|
  {
    if ops == [] then s else Run(Step(s, ops[0]), ops[1..])
  }

  // ---------- One dispatch per key ----------

  function SentBy(s: Service, op: Op): seq<Command> {
    if op.SubmitOp? && Submit(s, op.command, op.world).sent.Some? then [Submit(s, op.command, op.world).sent.value] else []
  }

  /** The commands a run passes to the executor, in order. */
  function Sent(s: Service, ops: seq<Op>): seq<Command>
    decreases |ops|
  {
    if ops == [] then [] else SentBy(s, ops[0]) + Sent(Step(s, ops[0]), ops[1..])
  }

  function WithKey(commands: seq<Command>, key: string): seq<Command> {
    if commands == [] then []
    else (if commands[0].idempotencyKey == key then [commands[0]] else []) + WithKey(commands[1..], key)
  }

  lemma {:induction false} WithKeyConcat(a: seq<Command>, b: seq<Command>, key: string)
    ensures WithKey(a + b, key) == WithKey(a, key) + WithKey(b, key)
    decreases |a|
  {
    if a == [] {
      assert a + b == b;
    } else {
      var rest := a[1..];
      var head := if a[0].idempotencyKey == key then [a[0]] else [];
      WithKeyConcat(rest, b, key);
      assert WithKey(a + b, key) == head + WithKey(rest + b, key) by {
        assert (a + b)[1..] == rest + b;
      }
      assert head + (WithKey(rest, key) + WithKey(b, key)) == head + WithKey(rest, key) + WithKey(b, key);
    }
  }

  /** A submission reaches the executor only with an unused key and all gates passed, and
      from then on its key is used. Keys are never given up. */
  lemma {:induction false} SubmitSpendsKey(s: Service, given: Command, w: World)
    ensures var submission := Submit(s, given, w);
            && s.idempotency.Keys <= submission.service.idempotency.Keys
            && (submission.sent.Some? ==>
                  var c := submission.sent.value;
                  && c == Prepare(given, w) && c.Valid()
                  && c.idempotencyKey !in s.idempotency && c.idempotencyKey in submission.service.idempotency
                  && w.now < c.expiresAt
                  && (c.expectedRevision.Some? ==> w.revision == c.expectedRevision)
                  && w.evaluation.Decided? && w.evaluation.decision.allowed)
  {
  }

  lemma {:induction false} StepSpendsKey(s: Service, op: Op, key: string)
    ensures key in s.idempotency ==> key in Step(s, op).idempotency
    ensures |WithKey(SentBy(s, op), key)| <= 1
    ensures |WithKey(SentBy(s, op), key)| == 1 ==> key !in s.idempotency && key in Step(s, op).idempotency
  {
    if op.SubmitOp? {
      SubmitSpendsKey(s, op.command, op.world);
      if SentBy(s, op) != [] {
        assert SentBy(s, op)[1..] == [];
      }
    }
  }

  /** Main result: in every run each idempotency key reaches the executor at most once, and
      never if it was used before. Identifiers need not be fresh for this. */
  lemma {:induction false} OneDispatchPerKey(s: Service, ops: seq<Op>, key: string)
    ensures |WithKey(Sent(s, ops), key)| <= if key in s.idempotency then 0 else 1
    decreases |ops|
  {
    if ops != [] {
      StepSpendsKey(s, ops[0], key);
      OneDispatchPerKey(Step(s, ops[0]), ops[1..], key);
      WithKeyConcat(SentBy(s, ops[0]), Sent(Step(s, ops[0]), ops[1..]), key);
    }
  }

  // ---------- Records only move forward ----------

  /** The command identifier is not taken, unless the key is: then it goes unused. */
  predicate Fresh(s: Service, command: Command) {
    command.idempotencyKey in s.idempotency || command.id !in s.results
  }

  predicate Sound(s: Service, op: Op) {
    op.SubmitOp? ==> Fresh(s, Prepare(op.command, op.world))
  }

  ghost predicate SoundRun(s: Service, ops: seq<Op>)
    decreases |ops|
  {
    ops == [] || (Sound(s, ops[0]) && SoundRun(Step(s, ops[0]), ops[1..]))
  }

  /** A record may change only in its status, forward, and not at all once terminal. */
  predicate MovesForward(before: Result, after: Result) {
    && before.command == after.command
    && before.status.Rank() <= after.status.Rank()
    && (before.status.Terminal() ==> after == before)
  }

  ghost predicate Advances(s: Service, s': Service) {
    && (forall id :: id in s.results ==> id in s'.results && MovesForward(s.results[id], s'.results[id]))
    && (forall k :: k in s.idempotency ==> k in s'.idempotency && s'.idempotency[k] == s.idempotency[k])
  }

  /** The service with one record filed. */
  function Put(s: Service, r: Result): Service {
    Service(s.results[r.command.id := r], s.idempotency[r.command.idempotencyKey := r.command.id])
  }

  /** A submission files at most one record, the one it returns. */
  lemma {:induction false} SubmitFiles(s: Service, given: Command, w: World)
    ensures var submission := Submit(s, given, w);
            match submission.returned
            case Given(r, _) =>
              && submission.service == Put(s, r)
              && r.command == Prepare(given, w) && given.idempotencyKey !in s.idempotency
            case _ => submission.service == s
  {
    var c := Prepare(given, w);
    if Submit(s, given, w).returned.Given? && Gates(c, w).Pass? {
      DispatchFiles(s, c, w);
    }
  }

  lemma {:induction false} DispatchFiles(s: Service, c: Command, w: World)
    ensures var submission := Dispatch(Record(s, c, Validated, WasValidated), c, w);
            && submission.returned.Given? && submission.returned.result.command == c
            && submission.service == Put(s, submission.returned.result)
  {
  }

  lemma {:induction false} PutOnlyAdds(s: Service, r: Result)
    requires s.Valid() && r.command.id !in s.results && r.command.idempotencyKey !in s.idempotency
    ensures Put(s, r).Valid()
    ensures forall id :: id in s.results ==> id in Put(s, r).results && Put(s, r).results[id] == s.results[id]
    ensures forall k :: k in s.idempotency ==> k in Put(s, r).idempotency && Put(s, r).idempotency[k] == s.idempotency[k]
  {
  }

  /** A submission with a fresh identifier touches no earlier record and keeps keys and
      commands in correspondence. */
  lemma {:induction false} SubmitOnlyAdds(s: Service, given: Command, w: World)
    requires s.Valid() && Fresh(s, Prepare(given, w))
    ensures var s' := Submit(s, given, w).service;
            && s'.Valid()
            && (forall id :: id in s.results ==> id in s'.results && s'.results[id] == s.results[id])
            && (forall k :: k in s.idempotency ==> k in s'.idempotency && s'.idempotency[k] == s.idempotency[k])
  {
    SubmitFiles(s, given, w);
    var returned := Submit(s, given, w).returned;
    if returned.Given? {
      PutOnlyAdds(s, returned.result);
    }
  }

  lemma {:induction false} UpdateAdvances(s: Service, id: Id, r: Result)
    requires s.Valid() && id in s.results && MovesForward(s.results[id], r)
    ensures var s' := s.(results := s.results[id := r]); s'.Valid() && Advances(s, s')
  {
  }

  lemma {:induction false} StepAdvances(s: Service, op: Op)
    requires s.Valid() && Sound(s, op)
    ensures Step(s, op).Valid() && Advances(s, Step(s, op))
  {
    if op.SubmitOp? {
      SubmitOnlyAdds(s, op.command, op.world);
    } else {
      SettlingAdvances(s, op);
    }
  }

  lemma {:induction false} SettlingAdvances(s: Service, op: Op)
    requires s.Valid() && !op.SubmitOp?
    ensures Step(s, op).Valid() && Advances(s, Step(s, op))
  {
    if op.ReconcileOp? {
      ReconcileSettles(s, op.reconciled, op.on, op.at, op.recorded, op.published);
      SettledAdvances(s, Step(s, op), op.reconciled);
    } else {
      ExpireSettles(s, op.expired, op.code, op.at, op.published);
      SettledAdvances(s, Step(s, op), op.expired);
    }
  }

  lemma {:induction false} SettledAdvances(s: Service, s': Service, id: Id)
    requires s.Valid()
    requires s' == s || (&& id in s.results && s.results[id].status == Acknowledged && id in s'.results
                         && s' == s.(results := s.results[id := s'.results[id]])
                         && s'.results[id].command == s.results[id].command && s'.results[id].status.Terminal())
    ensures s'.Valid() && Advances(s, s')
  {
    if s' != s {
      UpdateAdvances(s, id, s'.results[id]);
    }
  }

  lemma {:induction false} AdvancesTransitive(a: Service, b: Service, c: Service)
    requires Advances(a, b) && Advances(b, c)
    ensures Advances(a, c)
  {
  }

  /** Main result: with fresh identifiers, over every run, no record is lost, commands never
      change, statuses only move forward, and a terminal record is final. */
  lemma {:induction false} RecordsMoveForward(s: Service, ops: seq<Op>)
    requires s.Valid() && SoundRun(s, ops)
    ensures Run(s, ops).Valid() && Advances(s, Run(s, ops))
    decreases |ops|
  {
    if ops != [] {
      StepAdvances(s, ops[0]);
      RecordsMoveForward(Step(s, ops[0]), ops[1..]);
      AdvancesTransitive(s, Step(s, ops[0]), Run(Step(s, ops[0]), ops[1..]));
    }
  }

  /** The same intent as a stored command: the same equipment and state, wanted by the same
      requester. */
  predicate SameIntent(given: Command, stored: Command) {
    given.equipmentId == stored.equipmentId && given.on == stored.on && given.requester == stored.requester
  }

  /** Main result: a well-formed command under a used key changes nothing and is not sent. It
      is a conflict exactly when its equipment, its wanted state or its requester is not that
      of the stored command; otherwise it gets the stored result back. */
  lemma {:induction false} RepeatedKey(s: Service, given: Command, w: World)
    requires s.Valid() && Prepare(given, w).Valid() && given.idempotencyKey in s.idempotency
    ensures var submission, stored := Submit(s, given, w), s.results[s.idempotency[given.idempotencyKey]];
            && submission.service == s && submission.sent.None?
            && (submission.returned == Conflict <==> !SameIntent(given, stored.command))
            && (submission.returned == Existing(stored) <==> SameIntent(given, stored.command))
  {
  }

  // ---------- What a record says ----------

  /** The command with its identifiers filled in where the caller left them out. */
  predicate Filled(given: Command, w: World, c: Command) {
    && c.id == (if given.id == "" then w.commandId else given.id)
    && c.correlationId == (if given.correlationId == "" then w.correlationId else given.correlationId)
    && c == given.(id := c.id, correlationId := c.correlationId)
  }

  /** What every record carries: identifiers, a bounded key, who asked, and a proper period. */
  predicate Complete(c: Command) {
    && ValidUuid(c.id) && ValidUuid(c.correlationId) && ValidUuid(c.equipmentId)
    && 1 <= |c.idempotencyKey| <= 128 && |c.requester| > 0
    && c.issuedAt != 0 && c.expiresAt != 0 && c.issuedAt < c.expiresAt
  }

  predicate AtRevision(c: Command, w: World) {
    c.expectedRevision.Some? ==> w.revision == c.expectedRevision
  }

  predicate InTime(c: Command, w: World) {
    w.now < c.expiresAt
  }

  predicate Admitted(w: World) {
    w.evaluation.Decided? && w.evaluation.decision.allowed
  }

  /** Every event of the record was published: its one event, or all three of a dispatch. */
  predicate Announced(c: Command, w: World) {
    && w.recordPublished
    && (InTime(c, w) && AtRevision(c, w) && Admitted(w) ==> w.dispatchPublished && w.outcomePublished)
  }

  /** When submitting a complete command under a new key is an error: exactly when its
      revision cannot be read, the policy fails, or one of its events is not published. */
  lemma {:induction false} ErrorExactlyWhen(s: Service, given: Command, w: World, c: Command)
    requires Filled(given, w, c) && Complete(c) && c.idempotencyKey !in s.idempotency
    ensures IsError(Submit(s, given, w).returned) <==>
            || (InTime(c, w) && c.expectedRevision.Some? && w.revision.None?)
            || (InTime(c, w) && AtRevision(c, w) && w.evaluation.ReaderFailed?)
            || !Announced(c, w)
  {
    UnrecordedMeans(s, given, w, c);
    if Submit(s, given, w).returned.Given? {
      RecordMeans(s, given, w, c);
    }
  }

  /** The three answers without a record: a command is malformed exactly if it is not complete;
      a new one is otherwise left out only when in time with an unreadable revision, or when
      the policy itself fails. */
  lemma {:induction false} UnrecordedMeans(s: Service, given: Command, w: World, c: Command)
    requires Filled(given, w, c)
    ensures var returned := Submit(s, given, w).returned;
            && (returned == Malformed <==> !Complete(c))
            && (Complete(c) && c.idempotencyKey !in s.idempotency ==>
                  && (returned == RevisionUnreadable <==> InTime(c, w) && c.expectedRevision.Some? && w.revision.None?)
                  && (returned == PolicyFailed <==> InTime(c, w) && AtRevision(c, w) && w.evaluation.ReaderFailed?)
                  && (returned.Given? <==> returned != RevisionUnreadable && returned != PolicyFailed))
  {
    assert c == Prepare(given, w);
  }

  /** What the record of a new command means, reason by reason. */
  lemma {:induction false} RecordMeans(s: Service, given: Command, w: World, c: Command)
    requires Filled(given, w, c) && c.idempotencyKey !in s.idempotency && Submit(s, given, w).returned.Given?
    ensures var submission := Submit(s, given, w);
            var r, passed := submission.returned.result, InTime(c, w) && AtRevision(c, w) && Admitted(w);
            var published := w.recordPublished && w.dispatchPublished;
            && r.command == c && c.id in submission.service.results && submission.service.results[c.id] == r
            && (r.status == Expired && r.reason == WasExpired <==> !InTime(c, w))
            && (r.status == Rejected && r.reason == RevisionConflict <==> InTime(c, w) && !AtRevision(c, w))
            && (r.status == Rejected && r.reason.ByPolicy? <==> InTime(c, w) && AtRevision(c, w) && !Admitted(w))
            && (r.reason.ByPolicy? ==> w.evaluation.Decided? && r.reason.reason == w.evaluation.decision.reason)
            && (r.status == Validated && r.reason == WasValidated <==> passed && !w.recordPublished)
            && (r.status == Dispatched && r.reason == WasDispatched <==> passed && w.recordPublished && !w.dispatchPublished)
            && (submission.sent == Some(c) <==> passed && published)
            && (r.status == Failed && r.reason == DispatchFailed <==> passed && published && w.dispatch.DispatchError?)
            && (r.status == Failed && r.reason == AdapterRejected
                <==> passed && published && w.dispatch.Answered? && !w.dispatch.accepted)
            && (r.status == Acknowledged && r.reason == WasAcknowledged
                <==> passed && published && w.dispatch.Answered? && w.dispatch.accepted)
            && r.acknowledgedAt == (if r.status != Acknowledged then None
                                    else if w.dispatch.acknowledgedAt != 0 then Some(w.dispatch.acknowledgedAt)
                                    else Some(w.acknowledgementClock))
            && r.reconciledAt == None
            && submission.returned.published == Announced(c, w)
  {
    assert c == Prepare(given, w);
    if Gates(c, w).Pass? {
      DispatchMeans(s, c, w);
    }
  }

  lemma {:induction false} DispatchMeans(s: Service, c: Command, w: World)
    ensures var submission := Dispatch(Record(s, c, Validated, WasValidated), c, w);
            && submission.returned.Given?
            && var r := submission.returned.result;
               && r.command == c && c.id in submission.service.results && submission.service.results[c.id] == r
               && (r.status == Validated && r.reason == WasValidated <==> !w.recordPublished)
               && (r.status == Dispatched && r.reason == WasDispatched <==> w.recordPublished && !w.dispatchPublished)
               && (submission.sent == Some(c) <==> w.recordPublished && w.dispatchPublished)
               && (submission.sent.Some? ==>
                     match w.dispatch
                     case DispatchError => r.status == Failed && r.reason == DispatchFailed
                     case Answered(accepted, at) =>
                       if accepted then r.status == Acknowledged && r.reason == WasAcknowledged
                       else r.status == Failed && r.reason == AdapterRejected)
               && r.acknowledgedAt == (if r.status != Acknowledged then None
                                       else if w.dispatch.acknowledgedAt != 0 then Some(w.dispatch.acknowledgedAt)
                                       else Some(w.acknowledgementClock))
               && r.reconciledAt == None
               && submission.returned.published == (w.recordPublished && w.dispatchPublished && w.outcomePublished)
  {
  }

  ghost predicate AllComplete(s: Service) {
    forall id :: id in s.results ==> Complete(s.results[id].command)
  }

  lemma {:induction false} StepKeepsComplete(s: Service, op: Op)
    requires AllComplete(s)
    ensures AllComplete(Step(s, op))
  {
    match op
    case SubmitOp(given, w) => SubmitKeepsComplete(s, given, w);
    case ReconcileOp(id, on, at, recorded, published) => ReconcileSettles(s, id, on, at, recorded, published);
    case ExpireOp(id, code, at, published) => ExpireSettles(s, id, code, at, published);
  }

  lemma {:induction false} SubmitKeepsComplete(s: Service, given: Command, w: World)
    requires AllComplete(s)
    ensures AllComplete(Submit(s, given, w).service)
  {
    UnrecordedMeans(s, given, w, Prepare(given, w));
    SubmitFiles(s, given, w);
  }

  /** Every record of every run carries identifiers, a bounded key, a requester and a period. */
  lemma {:induction false} RecordsAreComplete(s: Service, ops: seq<Op>)
    requires AllComplete(s)
    ensures AllComplete(Run(s, ops))
    decreases |ops|
  {
    if ops != [] {
      StepKeepsComplete(s, ops[0]);
      RecordsAreComplete(Step(s, ops[0]), ops[1..]);
    }
  }

  /** Resubmitting a command after any run returns what the run left in its record, and
      never reaches the executor again. */
  lemma {:induction false} ResubmissionReturnsRecord(s: Service, given: Command, w: World, ops: seq<Op>, again: World)
    requires s.Valid() && Sound(s, SubmitOp(given, w)) && Submit(s, given, w).returned.Given?
    requires SoundRun(Submit(s, given, w).service, ops)
    requires Prepare(given, again).Valid()
    ensures var later, id := Run(Submit(s, given, w).service, ops), Prepare(given, w).id;
            && id in later.results
            && Submit(later, given, again) == Submission(later, Existing(later.results[id]), None)
  {
    var s1, c := Submit(s, given, w).service, Prepare(given, w);
    SubmitFiles(s, given, w);
    SubmitOnlyAdds(s, given, w);
    RecordsMoveForward(s1, ops);
    ResubmitAfter(s1, Run(s1, ops), c, given, again);
  }

  lemma {:induction false} ResubmitAfter(s: Service, later: Service, c: Command, given: Command, again: World)
    requires later.Valid() && Advances(s, later)
    requires c.idempotencyKey in s.idempotency && s.idempotency[c.idempotencyKey] == c.id
    requires c.id in s.results && s.results[c.id].command == c
    requires Equivalent(c, given) && Prepare(given, again).Valid()
    ensures c.id in later.results
    ensures Submit(later, given, again) == Submission(later, Existing(later.results[c.id]), None)
  {
    RepeatedKey(later, given, again);
  }

  /** Freshness is needed: a submission under a new key that is recorded leaves all earlier
      records alone exactly when its identifier was not taken. */
  lemma {:induction false} EarlierRecordsKeptIff(s: Service, given: Command, w: World)
    requires s.Valid() && given.idempotencyKey !in s.idempotency && Submit(s, given, w).returned.Given?
    ensures (forall id :: id in s.results ==> Submit(s, given, w).service.results[id] == s.results[id])
            <==> Prepare(given, w).id !in s.results
  {
    var s' := Submit(s, given, w).service;
    var c := Prepare(given, w);
    assert c.id in s'.results && s'.results[c.id].command == c;
    if c.id in s.results {
      assert s.results[c.id].command.idempotencyKey in s.idempotency;
      assert s'.results[c.id] != s.results[c.id];
    } else {
      SubmitOnlyAdds(s, given, w);
    }
  }

  /** What settling does: only an acknowledged command is settled, only its record changes,
      and an expiry only comes at or after the deadline. */
  lemma {:induction false} ExpireSettles(s: Service, id: Id, code: string, at: Time, published: bool)
    ensures var (s', settled) := ExpireAcknowledged(s, id, code, at, published);
            if settled.Settled? then
              && id in s.results && s.results[id].status == Acknowledged && s.results[id].command.expiresAt <= at
              && settled.result == s.results[id].(status := Expired, reason := ByAdapter(code)) && settled.published == published
              && s' == s.(results := s.results[id := settled.result])
            else && s' == s
                 && !(&& code != "" && at != 0 && id in s.results && s.results[id].status == Acknowledged
                      && s.results[id].command.expiresAt <= at)
  {
  }

  lemma {:induction false} ReconcileSettles(s: Service, id: Id, on: bool, at: Time, recorded: bool, published: bool)
    ensures var (s', settled) := Reconcile(s, id, on, at, recorded, published);
            if settled.Settled? then
              && recorded && id in s.results && s.results[id].status == Acknowledged
              && settled.result.command == s.results[id].command
              && settled.result.status == (if on == s.results[id].command.on then Succeeded else Failed)
              && settled.result.reason == (if on == s.results[id].command.on then Reconciled else ReportedMismatch)
              && settled.result.reconciledAt == (if on == s.results[id].command.on then Some(at) else s.results[id].reconciledAt)
              && settled.result.acknowledgedAt == s.results[id].acknowledgedAt && settled.published == published
              && s' == s.(results := s.results[id := settled.result])
            else s' == s && !(at != 0 && recorded && id in s.results && s.results[id].status == Acknowledged)
  {
  }

  // ---------- Watchdog actions reach the hardware ----------

  /** An action on hazardous equipment, submitted before its time to live is over, passes
      every gate in any later engine state and reaches the executor, as an off command. */
  lemma {:induction false} WatchdogReachesExecutor(
      e: Safety.Engine, id: Id, now: Time, ttl: Duration,
      later: Safety.Engine, clock: Time, reader: Safety.Reader, s: Service, w: World)
    requires e.Valid() && now != 0 && Safety.ActionFor(e, id, now).Some? && e.profiles[id].hazardous
    requires id in later.profiles
    requires var action := Safety.ActionFor(e, id, now).value;
             w.evaluation == Safety.Evaluate(later, Safety.Intent(action.equipmentId, action.on, action.observedAt), clock, reader).1
    requires ttl > 0 && now + ttl != 0 && w.now < now + ttl
    requires ValidUuid(w.commandId) && ValidUuid(w.correlationId) && w.recordPublished && w.dispatchPublished
    requires "watchdog/" + w.commandId !in s.idempotency
    ensures var command := WatchdogCommand(Safety.ActionFor(e, id, now).value, ttl, w.commandId, w.correlationId);
            && Submit(s, command, w).sent == Some(command) && !command.on && command.equipmentId == id
            && command.issuedAt == now && command.expiresAt == now + ttl && command.requester == "safety-watchdog"
  {
    Watchdogs.HazardousActionIsOffAndAllowed(e, id, now, later, clock, reader);
    var action := Safety.ActionFor(e, id, now).value;
    assert Profile.Valid(e.profiles[id]) && action.equipmentId == id;
    var command := WatchdogCommand(action, ttl, w.commandId, w.correlationId);
    assert |command.idempotencyKey| == |"watchdog/"| + |w.commandId|;
    assert command.Valid() && Prepare(command, w) == command;
    assert Gates(command, w) == Pass;
  }

  // ---------- Which actions of a batch are submitted ----------

  /** The service as it is when the first `n` actions have been submitted, errors or not. */
  function ServiceBefore(s: Service, actions: seq<Safety.Action>, ttl: Duration, worlds: seq<World>, n: nat): Service
    requires n <= |actions| == |worlds|
    decreases |actions|
  {
    if n == 0 then s
    else
      var command := WatchdogCommand(actions[0], ttl, worlds[0].commandId, worlds[0].correlationId);
      ServiceBefore(Submit(s, command, worlds[0]).service, actions[1..], ttl, worlds[1..], n - 1)
  }

  /** What submitting the action at `i` gives, after all those before it. */
  function ReturnedFor(s: Service, actions: seq<Safety.Action>, ttl: Duration, worlds: seq<World>, i: nat): Returned
    requires i < |actions| == |worlds|
  {
    var command := WatchdogCommand(actions[i], ttl, worlds[i].commandId, worlds[i].correlationId);
    Submit(ServiceBefore(s, actions, ttl, worlds, i), command, worlds[i]).returned
  }

  /** Main result: of a batch of watchdog actions, each one is submitted exactly when none of
      those listed before it meets an error. */
  lemma {:induction false} ActionSubmittedIff(s: Service, actions: seq<Safety.Action>, ttl: Duration, worlds: seq<World>, i: nat)
    requires i < |actions| == |worlds|
    ensures var all := SubmitActions(s, actions, ttl, worlds).1;
            && |all| <= |actions|
            && (i < |all| <==> ErrorFree(s, actions, ttl, worlds, i))
            && (i < |all| ==> all[i] == ReturnedFor(s, actions, ttl, worlds, i))
    decreases |actions|
  {
    BatchLength(s, actions, ttl, worlds);
    if i > 0 {
      var command := WatchdogCommand(actions[0], ttl, worlds[0].commandId, worlds[0].correlationId);
      var first := Submit(s, command, worlds[0]);
      ErrorFreeCons(s, actions, ttl, worlds, i);
      ReturnedShifts(s, actions, ttl, worlds, i);
      ActionSubmittedIff(first.service, actions[1..], ttl, worlds[1..], i - 1);
      BatchCons(s, actions, ttl, worlds, first);
    }
  }

  lemma {:induction false} BatchCons(
      s: Service, actions: seq<Safety.Action>, ttl: Duration, worlds: seq<World>, first: Submission)
    requires 0 < |actions| == |worlds|
    requires first == Submit(s, WatchdogCommand(actions[0], ttl, worlds[0].commandId, worlds[0].correlationId), worlds[0])
    ensures SubmitActions(s, actions, ttl, worlds).1
         == [first.returned] + (if IsError(first.returned) then []
                                else SubmitActions(first.service, actions[1..], ttl, worlds[1..]).1)
  {
  }

  /** The first `i` submissions meet no error. */
  ghost predicate ErrorFree(s: Service, actions: seq<Safety.Action>, ttl: Duration, worlds: seq<World>, i: nat)
    requires i <= |actions| == |worlds|
  {
    forall j :: 0 <= j < i ==> !IsError(ReturnedFor(s, actions, ttl, worlds, j))
  }

  lemma {:induction false} ReturnedShifts(s: Service, actions: seq<Safety.Action>, ttl: Duration, worlds: seq<World>, i: nat)
    requires 0 < i < |actions| == |worlds|
    ensures var command := WatchdogCommand(actions[0], ttl, worlds[0].commandId, worlds[0].correlationId);
            ReturnedFor(s, actions, ttl, worlds, i)
            == ReturnedFor(Submit(s, command, worlds[0]).service, actions[1..], ttl, worlds[1..], i - 1)
  {
  }

  lemma {:induction false} ErrorFreeCons(s: Service, actions: seq<Safety.Action>, ttl: Duration, worlds: seq<World>, i: nat)
    requires 0 < i <= |actions| == |worlds|
    ensures var command := WatchdogCommand(actions[0], ttl, worlds[0].commandId, worlds[0].correlationId);
            var first := Submit(s, command, worlds[0]);
            ErrorFree(s, actions, ttl, worlds, i)
            <==> !IsError(first.returned) && ErrorFree(first.service, actions[1..], ttl, worlds[1..], i - 1)
  {
    var command := WatchdogCommand(actions[0], ttl, worlds[0].commandId, worlds[0].correlationId);
    var first := Submit(s, command, worlds[0]);
    assert ReturnedFor(s, actions, ttl, worlds, 0) == first.returned;
    forall j | 0 < j < i
      ensures ReturnedFor(s, actions, ttl, worlds, j) == ReturnedFor(first.service, actions[1..], ttl, worlds[1..], j - 1)
    {
      ReturnedShifts(s, actions, ttl, worlds, j);
    }
    if ErrorFree(s, actions, ttl, worlds, i) {
      forall j | 0 <= j < i - 1
        ensures !IsError(ReturnedFor(first.service, actions[1..], ttl, worlds[1..], j))
      {
        assert !IsError(ReturnedFor(s, actions, ttl, worlds, j + 1));
      }
    }
  }

  lemma {:induction false} BatchLength(s: Service, actions: seq<Safety.Action>, ttl: Duration, worlds: seq<World>)
    requires |actions| == |worlds|
    ensures |SubmitActions(s, actions, ttl, worlds).1| <= |actions|
    decreases |actions|
  {
    if actions != [] {
      var command := WatchdogCommand(actions[0], ttl, worlds[0].commandId, worlds[0].correlationId);
      BatchLength(Submit(s, command, worlds[0]).service, actions[1..], ttl, worlds[1..]);
    }
  }
}
