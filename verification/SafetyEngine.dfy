/** The safety engine that updates its tables in place. Every method is proved against the
    policy functions of `Safety`. */
module SafetyEngine {
  import opened Domain
  import Profile
  import S = Safety

  /** What a check does to one equipment: its runtime afterwards, and the action caused. */
  type Verdict = (S.Runtime, Option<S.Action>)

  /** The verdicts of a check at `now`, equipment by equipment. */
  ghost function Verdicts(e: S.Engine, now: Time): map<Id, Verdict> {
    map id | id in e.profiles :: S.CheckFor(e, id, now)
  }

  /** The list holds exactly the actions caused for `ids`, each once, in some order: the
      order in which a Go map is traversed is unspecified. */
  ghost predicate ListsActions(actions: seq<S.Action>, verdicts: map<Id, Verdict>, ids: set<Id>) {
    && (forall i :: 0 <= i < |actions| ==>
          && actions[i].equipmentId in ids && actions[i].equipmentId in verdicts
          && verdicts[actions[i].equipmentId].1 == Some(actions[i]))
    && (forall id :: id in ids && id in verdicts && verdicts[id].1.Some? ==> verdicts[id].1.value in actions)
    && (forall i, j :: 0 <= i < j < |actions| ==> actions[i].equipmentId != actions[j].equipmentId)
  }

  function Append(actions: seq<S.Action>, action: Option<S.Action>): seq<S.Action> {
    if action.Some? then actions + [action.value] else actions
  }

  lemma {:induction false} ListsOneMore(
      actions: seq<S.Action>, action: Option<S.Action>, verdicts: map<Id, Verdict>, ids: set<Id>, id: Id)
    requires ListsActions(actions, verdicts, ids) && id in verdicts
    requires action.Some? ==> action.value.equipmentId == id
    requires action == if id in ids then None else verdicts[id].1
    ensures ListsActions(Append(actions, action), verdicts, ids + {id})
  {
    if action.Some? {
      assert (actions + [action.value])[|actions|] == action.value;
    }
  }

  /** The equipment whose override has expired by `now`. */
  ghost function Due(e: S.Engine, now: Time): set<Id> {
    set id | id in e.overrides && S.OverrideDue(e, id, now)
  }

  /** Part of a check is done: the equipment in `done` has its verdict, the rest its runtime
      from before. */
  ghost predicate Checked(
      verdicts: map<Id, Verdict>, before: map<Id, S.Runtime>, current: map<Id, S.Runtime>, done: set<Id>)
  {
    && before.Keys <= current.Keys <= verdicts.Keys
    && (forall id :: id in done ==> id in current && current[id] == verdicts[id].0)
    && (forall id :: id in current && id !in done ==> id in before && current[id] == before[id])
  }

  lemma {:induction false} CheckedOneMore(
      verdicts: map<Id, Verdict>, before: map<Id, S.Runtime>, current: map<Id, S.Runtime>, done: set<Id>, id: Id)
    requires Checked(verdicts, before, current, done) && id in verdicts
    ensures Checked(verdicts, before, current[id := verdicts[id].0], done + {id})
  {
  }

  lemma {:induction false} OneLessToDo<V>(table: map<Id, V>, due: set<Id>, unseen: set<Id>, id: Id)
    requires id in unseen
    ensures due - (unseen - {id}) == if id in due then (due - unseen) + {id} else due - unseen
    ensures table - ((due - unseen) + {id}) == (table - (due - unseen)) - {id}
  {
  }

  lemma {:induction false} AccountTwice(r: S.Runtime, at: Time)
    ensures S.Account(S.Account(r, at), at) == S.Account(r, at)
  {
  }

  /** Profiles that `New` accepts: each valid, no equipment twice. */
  ghost predicate Admissible(given: seq<Profile.Profile>) {
    && (forall i :: 0 <= i < |given| ==> Profile.Valid(given[i]))
    && (forall i, j :: 0 <= i < j < |given| ==> given[i].equipmentId != given[j].equipmentId)
  }

  /** The table holds exactly the given profiles, each under its equipment. */
  ghost predicate Files(table: map<Id, Profile.Profile>, given: seq<Profile.Profile>) {
    && (forall p :: p in given ==> p.equipmentId in table && table[p.equipmentId] == p)
    && (forall id :: id in table ==> table[id] in given && table[id].equipmentId == id)
  }

  lemma {:induction false} FileOneMore(table: map<Id, Profile.Profile>, given: seq<Profile.Profile>, p: Profile.Profile)
    requires S.Admitted(table) && Admissible(given) && Files(table, given)
    requires Profile.Valid(p) && p.equipmentId !in table
    ensures S.Admitted(table[p.equipmentId := p])
    ensures Admissible(given + [p]) && Files(table[p.equipmentId := p], given + [p])
  {
    forall i, j | 0 <= i < j < |given + [p]|
      ensures (given + [p])[i].equipmentId != (given + [p])[j].equipmentId
    {
      assert given[i] in given;
    }
    assert p in given + [p];
  }

  lemma {:induction false} NotAdmissible(table: map<Id, Profile.Profile>, given: seq<Profile.Profile>, i: nat)
    requires i < |given| && Files(table, given[..i])
    requires !Profile.Valid(given[i]) || given[i].equipmentId in table
    ensures !Admissible(given)
  {
    if given[i].equipmentId in table {
      var j :| 0 <= j < i && given[..i][j] == table[given[i].equipmentId];
      assert given[j].equipmentId == given[i].equipmentId;
    }
  }

  class Engine {
    var mode: S.Mode
    var profiles: map<Id, Profile.Profile>
    var overrides: map<Id, S.Override>
    var runtime: map<Id, S.Runtime>

    ghost function Abs(): S.Engine
      reads this
    {
      S.Engine(mode, profiles, overrides, runtime)
    }

    ghost predicate Valid()
      reads this
    {
      Abs().Valid()
    }

    /** The part of validity that the watchdog passes rely on. */
    ghost predicate Filed()
      reads this
    {
      && overrides.Keys <= profiles.Keys && runtime.Keys <= profiles.Keys
      && forall id :: id in profiles ==> profiles[id].equipmentId == id
    }

    constructor (admitted: map<Id, Profile.Profile>)
      ensures Abs() == S.Engine(S.Normal, admitted, map[], map[])
    {
      mode := S.Normal;
      profiles := admitted;
      overrides := map[];
      runtime := map[];
    }

    /** Builds an engine from the given profiles, unless one is invalid or repeated. */
    static method New(given: seq<Profile.Profile>) returns (engine: Option<Engine>)
      ensures engine.Some? <==> Admissible(given)
      ensures engine.Some? ==>
              && fresh(engine.value) && engine.value.Valid()
              && engine.value.Abs() == S.Engine(S.Normal, engine.value.profiles, map[], map[])
              && Files(engine.value.profiles, given)
    {
      var admitted: map<Id, Profile.Profile> := map[];
      for i := 0 to |given|
        invariant S.Admitted(admitted) && Admissible(given[..i]) && Files(admitted, given[..i])
      {
        assert given[..i + 1] == given[..i] + [given[i]];
        if !Profile.Valid(given[i]) || given[i].equipmentId in admitted {
          NotAdmissible(admitted, given, i);
          return None;
        }
        FileOneMore(admitted, given[..i], given[i]);
        admitted := admitted[given[i].equipmentId := given[i]];
      }
      assert given[..|given|] == given;
      var created := new Engine(admitted);
      engine := Some(created);
    }

    method Account(id: Id, at: Time) returns (r: S.Runtime)
      modifies this`runtime
      ensures r == S.Account(old(Abs()).RuntimeOf(id), at)
      ensures runtime == old(runtime)[id := r]
    {
      r := if id in runtime then runtime[id] else S.NO_RUNTIME;
      var date := Some(UtcDay(at));
      if r.dailyDate != date {
        r := r.(dailyDate := date, dailyOn := 0);
        if r.on {
          r := r.(lastAccounted := at);
        }
      }
      if r.on && r.lastAccounted != 0 && at > r.lastAccounted {
        r := r.(dailyOn := r.dailyOn + (at - r.lastAccounted));
        r := r.(lastAccounted := at);
      }
      runtime := runtime[id := r];
    }

    /** Accounts, drops an expired override, then judges. */
    method Evaluate(intent: S.Intent, clock: Time, reader: S.Reader) returns (evaluation: S.Evaluation)
      modifies this
      ensures (Abs(), evaluation) == S.Evaluate(old(Abs()), intent, clock, reader)
    {
      var now := intent.issuedAt;
      if now == 0 {
        now := clock;
      }
      if intent.equipmentId !in profiles {
        return S.Decided(S.Decision(false, S.UnknownEquipment, false, None));
      }
      var profile := profiles[intent.equipmentId];
      var r := Account(intent.equipmentId, now);
      var override: Option<S.Override> := None;
      if intent.equipmentId in overrides {
        if now >= overrides[intent.equipmentId].expiresAt {
          overrides := overrides - {intent.equipmentId};
        } else {
          override := Some(overrides[intent.equipmentId]);
        }
      }
      evaluation := Judge(profile, r, override, intent.on, now, reader);
    }

    /** The verdict on the accounted runtime: limits first, then inputs, then the mode. */
    method Judge(
        profile: Profile.Profile, r: S.Runtime, override: Option<S.Override>, on: bool, now: Time, reader: S.Reader)
      returns (evaluation: S.Evaluation)
      ensures evaluation == S.Judge(mode, profile, r, override, on, now, reader)
    {
      if !on {
        return S.Decided(S.ALLOW);
      }
      if mode == S.EmergencyStop {
        return S.Decided(S.HardDenial(S.EmergencyStopped));
      }
      if r.on && profile.limits.maximumOn > 0 && now - r.onSince >= profile.limits.maximumOn {
        return S.Decided(S.HardDenial(S.MaximumOn));
      }
      if profile.limits.maximumDailyOn > 0 && r.dailyOn >= profile.limits.maximumDailyOn {
        return S.Decided(S.HardDenial(S.MaximumDailyOn));
      }
      if r.offSince != 0 && profile.limits.minimumOff > 0 && now - r.offSince < profile.limits.minimumOff {
        return S.Decided(S.HardDenial(S.MinimumOff));
      }
      if profile.hazardous {
        var inputs := ValidateInputs(profile, reader);
        if inputs.ReaderFailed? || !inputs.decision.allowed {
          return inputs;
        }
      }
      if (mode == S.Maintenance || mode == S.Manual) && override.None? {
        return S.Decided(S.Decision(false, S.OverrideRequired, false, None));
      }
      var decision := S.ALLOW;
      if override.Some? {
        decision := decision.(overrideId := Some(override.value.id));
      }
      evaluation := S.Decided(decision);
    }

    method ValidateInputs(profile: Profile.Profile, reader: S.Reader) returns (evaluation: S.Evaluation)
      ensures evaluation == S.ValidateInputs(profile.requiredInputs, reader)
    {
      for i := 0 to |profile.requiredInputs|
        invariant S.ValidateInputs(profile.requiredInputs, reader) == S.ValidateInputs(profile.requiredInputs[i..], reader)
      {
        var requirement := profile.requiredInputs[i];
        if requirement.key !in reader {
          return S.Decided(S.HardDenial(S.InputMissing));
        }
        if reader[requirement.key].Failed? {
          return S.ReaderFailed;
        }
        var entry := reader[requirement.key].entry;
        if entry.quality == Stale {
          return S.Decided(S.HardDenial(S.InputStale));
        }
        if entry.quality != Good {
          return S.Decided(S.HardDenial(S.InputInvalid));
        }
        if requirement.requireBoolean.Some?
           && (entry.value.boolean.None? || entry.value.boolean.value != requirement.requireBoolean.value) {
          return S.Decided(S.HardDenial(S.InputMismatch));
        }
        assert profile.requiredInputs[i..][1..] == profile.requiredInputs[i + 1..];
      }
      evaluation := S.Decided(S.ALLOW);
    }

    method RecordReported(id: Id, on: bool, at: Time) returns (ok: bool)
      modifies this`runtime
      ensures (Abs(), ok) == S.RecordReported(old(Abs()), id, on, at)
    {
      if at == 0 || id !in profiles {
        return false;
      }
      var r := Account(id, at);
      if r.on != on {
        r := r.(on := on);
        if on {
          r := r.(onSince := at, lastAccounted := at);
        } else {
          r := r.(offSince := at, onSince := 0, lastAccounted := 0);
        }
        r := r.(watchdogReason := None);
      }
      runtime := runtime[id := r];
      ok := true;
      assert runtime == old(runtime)[id := S.Record(old(Abs()).RuntimeOf(id), on, at)];
    }

    method SetMode(newMode: S.Mode) returns (ok: bool)
      modifies this`mode
      ensures Abs() == S.SetMode(old(Abs()), newMode) && (ok <==> newMode != S.UnknownMode)
    {
      ok := newMode != S.UnknownMode;
      if ok {
        mode := newMode;
      }
    }

    method GrantOverride(given: S.Override, clock: Time) returns (ok: bool)
      modifies this`overrides
      ensures ok == S.Grantable(old(Abs()), given, clock)
      ensures Abs() == S.GrantOverride(old(Abs()), given, clock)
    {
      if !ValidUuid(given.id) || given.reason == "" || given.requester == "" {
        return false;
      }
      var override := given;
      if override.createdAt == 0 {
        override := override.(createdAt := clock);
      }
      if override.expiresAt <= override.createdAt || override.equipmentId !in profiles {
        return false;
      }
      overrides := overrides[override.equipmentId := override];
      ok := true;
    }

    method RevokeOverride(id: Id)
      modifies this`overrides
      ensures Abs() == S.RevokeOverride(old(Abs()), id)
    {
      overrides := overrides - {id};
    }

    // ---------- Watchdogs ----------

    /** First pass, one override: drop it once expired, and mark equipment it leaves on. */
    method ExpireOverride(id: Id, now: Time) returns (action: Option<S.Action>)
      requires Filed() && id in overrides
      modifies this`overrides, this`runtime
      ensures !S.OverrideDue(old(Abs()), id, now) ==> action == None && Abs() == old(Abs())
      ensures S.OverrideDue(old(Abs()), id, now) ==>
              && action == S.ActionFor(old(Abs()), id, now)
              && overrides == old(overrides) - {id}
              && runtime == old(runtime)[id := S.CheckFor(old(Abs()), id, now).0]
    {
      action := None;
      if now >= overrides[id].expiresAt {
        overrides := overrides - {id};
        var r := Account(id, now);
        if r.on && r.watchdogReason.None? {
          r := r.(watchdogReason := Some(S.OverrideExpired));
          runtime := runtime[id := r];
          action := Some(S.Action(id, profiles[id].failSafeOn, S.OverrideExpired, now));
        }
      }
    }

    /** Second pass, one profile: account, and mark equipment over its limits. */
    method CheckLimits(id: Id, now: Time) returns (action: Option<S.Action>)
      requires Filed() && id in profiles
      modifies this`runtime
      ensures var p, r := profiles[id], old(Abs()).RuntimeOf(id);
              && action == S.CheckOne(p, false, r, now).1
              && runtime == old(runtime)[id := S.CheckOne(p, false, r, now).0]
    {
      action := None;
      var profile := profiles[id];
      var r := Account(id, now);
      if r.watchdogReason.Some? {
        return;
      }
      if r.on && profile.limits.maximumOn > 0 && now - r.onSince >= profile.limits.maximumOn {
        r := r.(watchdogReason := Some(S.MaximumOn));
        runtime := runtime[id := r];
        action := Some(S.Action(id, profile.failSafeOn, S.MaximumOn, now));
      } else if r.on && profile.limits.maximumDailyOn > 0 && r.dailyOn >= profile.limits.maximumDailyOn {
        r := r.(watchdogReason := Some(S.MaximumDailyOn));
        runtime := runtime[id := r];
        action := Some(S.Action(id, profile.failSafeOn, S.MaximumDailyOn, now));
      }
    }

    /** The second pass reaches one more profile. */
    method CheckNext(
        id: Id, now: Time, actions: seq<S.Action>, ghost e: S.Engine, ghost verdicts: map<Id, Verdict>, ghost done: set<Id>)
      returns (more: seq<S.Action>)
      requires Filed() && id in profiles && profiles == e.profiles
      requires id in verdicts && verdicts[id] == S.CheckFor(e, id, now)
      requires id in done <==> S.OverrideDue(e, id, now)
      requires Checked(verdicts, e.runtime, runtime, done) && ListsActions(actions, verdicts, done)
      modifies this`runtime
      ensures Filed()
      ensures Checked(verdicts, e.runtime, runtime, done + {id}) && ListsActions(more, verdicts, done + {id})
    {
      VerdictByLimits(e, verdicts, runtime, id, now, done);
      CheckedOneMore(verdicts, e.runtime, runtime, done, id);
      var action := CheckLimits(id, now);
      ListsOneMore(actions, action, verdicts, done, id);
      more := Append(actions, action);
    }

    /** The first pass reaches one more override. */
    method ExpireNext(
        id: Id, now: Time, actions: seq<S.Action>, ghost e: S.Engine, ghost verdicts: map<Id, Verdict>, ghost done: set<Id>)
      returns (more: seq<S.Action>, ghost done': set<Id>)
      requires Filed() && id in overrides && id !in done && profiles == e.profiles
      requires id in e.overrides && e.overrides[id] == overrides[id]
      requires id in verdicts && verdicts[id] == S.CheckFor(e, id, now)
      requires Checked(verdicts, e.runtime, runtime, done) && ListsActions(actions, verdicts, done)
      modifies this`runtime, this`overrides
      ensures Filed()
      ensures done' == if S.OverrideDue(e, id, now) then done + {id} else done
      ensures overrides == if S.OverrideDue(e, id, now) then old(overrides) - {id} else old(overrides)
      ensures Checked(verdicts, e.runtime, runtime, done') && ListsActions(more, verdicts, done')
    {
      VerdictByExpiry(e, Abs(), id, now);
      CheckedOneMore(verdicts, e.runtime, runtime, done, id);
      var action := ExpireOverride(id, now);
      more, done' := Append(actions, action), done;
      if S.OverrideDue(e, id, now) {
        ListsOneMore(actions, action, verdicts, done, id);
        done' := done + {id};
      }
    }

    /** Both passes, over all overrides and then over all profiles. */
    method CheckWatchdogs(now: Time) returns (actions: seq<S.Action>)
      requires Filed()
      modifies this`overrides, this`runtime
      ensures Abs() == S.CheckWatchdogs(old(Abs()), now)
      ensures ListsActions(actions, Verdicts(old(Abs()), now), profiles.Keys)
    {
      ghost var e := Abs();
      ghost var verdicts := Verdicts(e, now);
      actions := CheckOverrides(now, e, verdicts);
      ghost var due, kept := Due(e, now), overrides;
      ghost var done := due;
      var unseen := profiles.Keys;
      while unseen != {}
        invariant unseen <= profiles.Keys && Filed() && overrides == kept
        invariant done == due + (profiles.Keys - unseen)
        invariant Checked(verdicts, e.runtime, runtime, done) && ListsActions(actions, verdicts, done)
      {
        var id :| id in unseen;
        assert due + (profiles.Keys - (unseen - {id})) == due + (profiles.Keys - unseen) + {id};
        unseen := unseen - {id};
        actions := CheckNext(id, now, actions, e, verdicts, done);
        done := done + {id};
      }
      assert done == profiles.Keys;
      CheckedAll(e, now, runtime);
    }

    /** The first pass leaves expired overrides out and their equipment fully checked. */
    method CheckOverrides(now: Time, ghost e: S.Engine, ghost verdicts: map<Id, Verdict>) returns (actions: seq<S.Action>)
      requires Filed() && e == Abs() && profiles.Keys <= verdicts.Keys
      requires forall id :: id in overrides ==> verdicts[id] == S.CheckFor(e, id, now)
      modifies this`overrides, this`runtime
      ensures Filed() && overrides == e.overrides - Due(e, now)
      ensures Checked(verdicts, e.runtime, runtime, Due(e, now)) && ListsActions(actions, verdicts, Due(e, now))
    {
      ghost var due := Due(e, now);
      actions := [];
      ghost var done: set<Id> := {};
      var unseen := overrides.Keys;
      while unseen != {}
        invariant unseen <= e.overrides.Keys && done == due - unseen
        invariant Filed() && overrides == e.overrides - done
        invariant Checked(verdicts, e.runtime, runtime, done) && ListsActions(actions, verdicts, done)
      {
        var id :| id in unseen;
        OneLessToDo(e.overrides, due, unseen, id);
        unseen := unseen - {id};
        actions, done := ExpireNext(id, now, actions, e, verdicts, done);
      }
    }
  }

  lemma {:induction false} CheckedAll(e: S.Engine, now: Time, current: map<Id, S.Runtime>)
    requires Checked(Verdicts(e, now), e.runtime, current, e.profiles.Keys)
    ensures current == S.CheckWatchdogs(e, now).runtime
    ensures e.overrides - Due(e, now) == S.CheckWatchdogs(e, now).overrides
  {
  }

  lemma {:induction false} VerdictByExpiry(e: S.Engine, current: S.Engine, id: Id, now: Time)
    requires id in e.profiles && id in e.overrides && id in current.overrides
    requires current.profiles == e.profiles && current.overrides[id] == e.overrides[id]
    requires current.RuntimeOf(id) == e.RuntimeOf(id)
    ensures S.OverrideDue(current, id, now) == S.OverrideDue(e, id, now)
    ensures S.CheckFor(current, id, now) == S.CheckFor(e, id, now)
  {
  }

  lemma {:induction false} VerdictByLimits(
      e: S.Engine, verdicts: map<Id, Verdict>, current: map<Id, S.Runtime>, id: Id, now: Time, done: set<Id>)
    requires id in e.profiles && (id in done <==> S.OverrideDue(e, id, now))
    requires id in verdicts && verdicts[id] == S.CheckFor(e, id, now)
    requires Checked(verdicts, e.runtime, current, done)
    ensures var r := if id in current then current[id] else S.NO_RUNTIME;
            var (r', action) := S.CheckFor(e, id, now);
            S.CheckOne(e.profiles[id], false, r, now) == (r', if id in done then None else action)
    ensures S.CheckFor(e, id, now).1.Some? ==> S.CheckFor(e, id, now).1.value.equipmentId == e.profiles[id].equipmentId
  {
    RecheckIsNoOp(e, id, now);
  }

  /** Checking limits after the first pass repeats nothing: equipment whose override expired
      is already accounted and, if on, already marked. */
  lemma {:induction false} RecheckIsNoOp(e: S.Engine, id: Id, now: Time)
    requires id in e.profiles
    ensures var p := e.profiles[id];
            var (r, action) := S.CheckFor(e, id, now);
            if S.OverrideDue(e, id, now) then S.CheckOne(p, false, r, now) == (r, None)
            else S.CheckOne(p, false, e.RuntimeOf(id), now) == (r, action)
  {
    AccountTwice(e.RuntimeOf(id), now);
  }
}
