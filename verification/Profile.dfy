/** Equipment safety profiles and the rules that admit them. */
module Profile {
  import opened Domain
  import State

  datatype Kind = Outlet | Heater | ReturnPump | CirculationPump | Ato | DosingPump | Light | UnknownKind

  datatype Capability =
    | Observe | Switch | VariableOutput | CommandAcknowledgement | ReportedState | PowerTelemetry
    | UnknownCapability

  datatype Requirement = Requirement(key: State.Key, requireBoolean: Option<bool>)

  datatype Limits = Limits(maximumOn: Duration, maximumDailyOn: Duration, minimumOff: Duration)

  datatype Profile = Profile(
    equipmentId: Id,
    kind: Kind,
    hazardous: bool,
    failSafeOn: bool,
    capabilities: seq<Capability>,
    limits: Limits,
    requiredInputs: seq<Requirement>)

  predicate ValidCapabilities(values: seq<Capability>) {
    && values != []
    && UnknownCapability !in values
    && forall i, j :: 0 <= i < j < |values| ==> values[i] != values[j]
  }

  predicate ValidRequirement(r: Requirement) {
    && r.key.kind == State.Sensor
    && r.key.plane == State.Observation
    && r.key.attribute != ""
    && ValidUuid(r.key.id)
  }

  /** The profile rules, in the order they are checked. */
  predicate Valid(p: Profile) {
    && ValidUuid(p.equipmentId)
    && ValidCapabilities(p.capabilities)
    && Switch in p.capabilities && CommandAcknowledgement in p.capabilities && ReportedState in p.capabilities
    && (match p.kind
        case Outlet | ReturnPump | CirculationPump | Light => true
        case Heater | Ato | DosingPump => p.hazardous && p.limits.maximumOn > 0 && p.requiredInputs != []
        case UnknownKind => false)
    && p.limits.maximumOn >= 0 && p.limits.maximumDailyOn >= 0 && p.limits.minimumOff >= 0
    && (p.limits.maximumDailyOn > 0 ==> p.limits.maximumOn <= p.limits.maximumDailyOn)
    && !(p.failSafeOn && p.hazardous)
    && (p.kind == DosingPump ==> p.limits.maximumDailyOn > 0)
    && forall i :: 0 <= i < |p.requiredInputs| ==> ValidRequirement(p.requiredInputs[i])
  }

  /** What admission promises about equipment: every heater, refill and dosing pump is
      hazardous, limited in its time on and bound to inputs; hazardous equipment fails safe
      off; a dosing pump has a daily limit; a time on fits into the daily limit; inputs are
      sensor observations; and the equipment can be switched, acknowledges and reports. */
  ghost predicate Protected(p: Profile) {
    && (p.kind in {Heater, Ato, DosingPump} ==> p.hazardous && p.limits.maximumOn > 0 && |p.requiredInputs| > 0)
    && (p.hazardous ==> !p.failSafeOn)
    && (p.kind == DosingPump ==> p.limits.maximumDailyOn > 0)
    && (p.limits.maximumDailyOn > 0 ==> p.limits.maximumOn <= p.limits.maximumDailyOn)
    && p.limits.maximumOn >= 0 && p.limits.maximumDailyOn >= 0 && p.limits.minimumOff >= 0
    && p.kind != UnknownKind && ValidUuid(p.equipmentId)
    && (forall c :: c in {Switch, CommandAcknowledgement, ReportedState} ==> c in p.capabilities)
    && (forall i :: 0 <= i < |p.capabilities| ==> p.capabilities[i] != UnknownCapability)
    && (forall i, j :: 0 <= i < j < |p.capabilities| ==> p.capabilities[i] != p.capabilities[j])
    && (forall i :: 0 <= i < |p.requiredInputs| ==>
          var key := p.requiredInputs[i].key;
          key.kind == State.Sensor && key.plane == State.Observation && |key.attribute| > 0 && ValidUuid(key.id))
  }

  lemma {:induction false} AdmittedIffProtected(p: Profile)
    ensures Valid(p) <==> Protected(p)
  {
    assert UnknownCapability !in p.capabilities <==>
           forall i :: 0 <= i < |p.capabilities| ==> p.capabilities[i] != UnknownCapability;
    if Protected(p) {
      assert Switch in p.capabilities && CommandAcknowledgement in p.capabilities && ReportedState in p.capabilities;
    }
  }
}
