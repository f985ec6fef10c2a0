/** Mode and overrides over whole runs, read off the operations: the mode is the last one set,
    and an override stands from a proper grant until it is replaced, revoked or lapses. */
module Grants {
  import opened Domain
  import opened Safety
  import opened SafetyRuns
  import Watchdogs

  /** As a new engine is. */
  ghost predicate New(e: Engine) {
    e.Valid() && e.mode == Normal && e.overrides == map[] && e.runtime == map[]
  }

  /** The operation sets a known mode. */
  predicate Sets(op: Op) {
    op.SetModeOp? && op.mode in {Normal, Maintenance, Manual, EmergencyStop}
  }

  ghost predicate LastSet(ops: seq<Op>, i: int) {
    0 <= i < |ops| && Sets(ops[i]) && forall j :: i < j < |ops| ==> !Sets(ops[j])
  }

  /** The mode is the last known one that was set; until one is, it stays. */
  lemma {:induction false} ModeIsLastSet(e: Engine, ops: seq<Op>)
    ensures forall i :: LastSet(ops, i) ==> Run(e, ops).mode == ops[i].mode
    ensures (forall i :: 0 <= i < |ops| ==> !Sets(ops[i])) ==> Run(e, ops).mode == e.mode
    ensures (exists i :: 0 <= i < |ops| && Sets(ops[i])) ==> exists i :: LastSet(ops, i)
    decreases |ops|
  {
    if ops != [] {
      var n, before := |ops| - 1, ops[..|ops| - 1];
      ModeIsLastSet(e, before);
      RunSnoc(e, ops);
      StepSetsMode(Run(e, before), ops[n]);
      if Sets(ops[n]) {
        assert LastSet(ops, n);
      } else {
        LastSetStays(ops, before);
      }
    }
  }

  lemma {:induction false} StepSetsMode(e: Engine, op: Op)
    ensures Step(e, op).mode == if Sets(op) then op.mode else e.mode
  {
  }

  lemma {:induction false} LastSetStays(ops: seq<Op>, before: seq<Op>)
    requires ops != [] && before == ops[..|ops| - 1] && !Sets(ops[|ops| - 1])
    ensures forall i :: LastSet(ops, i) <==> LastSet(before, i)
  {
    forall i
      ensures LastSet(ops, i) <==> LastSet(before, i)
    {
      assert forall j :: 0 <= j < |before| ==> before[j] == ops[j];
    }
  }

  // ---------- Overrides ----------

  /** A grant that names who, why and for how long, for known equipment. */
  predicate Grants(e: Engine, op: Op, id: Id) {
    && op.GrantOp? && op.override.equipmentId == id && id in e.profiles
    && ValidUuid(op.override.id) && op.override.requester != "" && op.override.reason != ""
    && (if op.override.createdAt == 0 then op.grantClock else op.override.createdAt) < op.override.expiresAt
  }

  /** The operation notices that an override of the equipment has run out: a check at or after
      its end, or an evaluation of the equipment dated so. */
  predicate Lapses(op: Op, id: Id, expiry: Time) {
    || (op.CheckOp? && op.now >= expiry)
    || (op.EvaluateOp? && op.intent.equipmentId == id
        && (if op.intent.issuedAt == 0 then op.clock else op.intent.issuedAt) >= expiry)
  }

  /** The override granted at `i` has not been replaced, revoked or let go since. */
  ghost predicate Stands(e: Engine, ops: seq<Op>, id: Id, i: int) {
    && 0 <= i < |ops| && Grants(e, ops[i], id)
    && forall j :: i < j < |ops| ==>
         !Grants(e, ops[j], id) && !(ops[j].RevokeOp? && ops[j].revoked == id)
         && !Lapses(ops[j], id, ops[i].override.expiresAt)
  }

  /** Main result: the override table holds exactly the standing grants. */
  lemma {:induction false} OverridesAreStandingGrants(e: Engine, ops: seq<Op>, id: Id)
    requires New(e)
    ensures id in Run(e, ops).overrides <==> exists i :: Stands(e, ops, id, i)
    ensures forall i :: Stands(e, ops, id, i) ==>
              var o := Run(e, ops).overrides[id];
              o.id == ops[i].override.id && o.expiresAt == ops[i].override.expiresAt
    decreases |ops|
  {
    if ops != [] {
      var n, before := |ops| - 1, ops[..|ops| - 1];
      OverridesAreStandingGrants(e, before, id);
      RunKeepsValid(e, before);
      RunSnoc(e, ops);
      StepOverride(Run(e, before), ops[n], id);
      GrantsSameProfiles(e, Run(e, before), ops[n], id);
      if Grants(e, ops[n], id) {
        assert Stands(e, ops, id, n);
        forall i | Stands(e, ops, id, i) ensures i == n {
        }
      } else {
        StandsSnoc(e, ops, before, id);
        if i :| Stands(e, before, id, i) {
          assert Stands(e, ops, id, i) <==> id in Run(e, ops).overrides;
          forall j | Stands(e, ops, id, j) ensures j == i {
            StandsUnique(e, before, id, i, j);
          }
        }
      }
    }
  }

  lemma {:induction false} StandsUnique(e: Engine, ops: seq<Op>, id: Id, i: int, j: int)
    requires Stands(e, ops, id, i) && Stands(e, ops, id, j)
    ensures i == j
  {
  }

  lemma {:induction false} GrantsSameProfiles(e: Engine, e': Engine, op: Op, id: Id)
    requires e.profiles == e'.profiles
    ensures Grants(e, op, id) <==> Grants(e', op, id)
  {
  }

  /** A last operation that grants nothing lets a standing grant stand or ends it. */
  lemma {:induction false} StandsSnoc(e: Engine, ops: seq<Op>, before: seq<Op>, id: Id)
    requires ops != [] && before == ops[..|ops| - 1] && !Grants(e, ops[|ops| - 1], id)
    ensures var last := ops[|ops| - 1];
            forall i :: Stands(e, ops, id, i) <==>
              && Stands(e, before, id, i) && !(last.RevokeOp? && last.revoked == id)
              && !Lapses(last, id, before[i].override.expiresAt)
  {
    var last := ops[|ops| - 1];
    forall i
      ensures Stands(e, ops, id, i) <==>
              && Stands(e, before, id, i) && !(last.RevokeOp? && last.revoked == id)
              && !Lapses(last, id, before[i].override.expiresAt)
    {
      assert forall j :: 0 <= j < |before| ==> before[j] == ops[j];
    }
  }

  /** What one operation does to the override of one equipment. */
  ghost predicate OverrideAfter(e: Engine, op: Op, id: Id, e': Engine) {
    if Grants(e, op, id) then
      id in e'.overrides && e'.overrides[id].id == op.override.id && e'.overrides[id].expiresAt == op.override.expiresAt
    else
      && (id in e'.overrides <==>
            && id in e.overrides && !(op.RevokeOp? && op.revoked == id) && !Lapses(op, id, e.overrides[id].expiresAt))
      && (id in e'.overrides ==> e'.overrides[id] == e.overrides[id])
  }

  lemma {:induction false} StepOverride(e: Engine, op: Op, id: Id)
    requires e.Valid()
    ensures OverrideAfter(e, op, id, Step(e, op))
  {
    if op.EvaluateOp? {
      EvaluateOverride(e, op, id);
    } else if op.CheckOp? {
      CheckLetsGo(e, op.now, id);
    } else if op.GrantOp? {
      GrantFiles(e, op.override, op.grantClock, id);
    } else {
      OtherOverride(e, op, id);
    }
  }

  lemma {:induction false} EvaluateOverride(e: Engine, op: Op, id: Id)
    requires e.Valid() && op.EvaluateOp?
    ensures OverrideAfter(e, op, id, Step(e, op))
  {
    Watchdogs.EvaluateLeavesOverride(e, op.intent, op.clock, op.reader, id);
  }

  lemma {:induction false} OtherOverride(e: Engine, op: Op, id: Id)
    requires op.ReportOp? || op.SetModeOp? || op.RevokeOp?
    ensures OverrideAfter(e, op, id, Step(e, op))
  {
  }

  lemma {:induction false} CheckLetsGo(e: Engine, now: Time, id: Id)
    ensures var e' := CheckWatchdogs(e, now);
            && (id in e'.overrides <==> id in e.overrides && now < e.overrides[id].expiresAt)
            && (id in e'.overrides ==> e'.overrides[id] == e.overrides[id])
  {
  }

  lemma {:induction false} GrantFiles(e: Engine, o: Override, clock: Time, id: Id)
    ensures var e' := GrantOverride(e, o, clock);
            if Grants(e, GrantOp(o, clock), id)
            then id in e'.overrides && e'.overrides[id].id == o.id && e'.overrides[id].expiresAt == o.expiresAt
            else (id in e'.overrides <==> id in e.overrides) && (id in e.overrides ==> e'.overrides[id] == e.overrides[id])
  {
  }
}
