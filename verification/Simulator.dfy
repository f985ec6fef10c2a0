/** The tank simulator as a step function over real-valued physics. The random source is an
    arbitrary stream of draws. */
module Simulator {
  import opened Domain

  const HOUR: Duration := 3600 * SECOND

  datatype FaultType =
    | SensorNoise | SensorDrift | SensorStale | RelayStuckOn | AckDelay | AckLoss
    | BrokerLoss | StorageLoss | Leak | ReturnPumpFailure | UnknownFault

  datatype Fault = Fault(at: int, duration: int, kind: FaultType, value: real)

  datatype Model = Model(
    initialTemperature: real, ambient: real, initialLevel: real,
    temperatureLow: real, temperatureHigh: real, levelLow: real, levelHigh: real,
    exchangePerHour: real, heaterPerHour: real, evaporationPerHour: real, fillPerHour: real,
    sensorFreshFor: Duration)

  datatype Scenario = Scenario(
    schemaVersion: int, name: string, start: Time, step: Duration, steps: int, model: Model, faults: seq<Fault>)

  /** The scenario rules; finiteness is given by the use of reals. */
  predicate Valid(s: Scenario) {
    && s.schemaVersion == 1
    && 0 < |s.name| <= 128 && s.start != 0
    && 0 < s.step <= HOUR && 1 <= s.steps <= 100000
    && s.model.temperatureLow < s.model.temperatureHigh && s.model.levelLow < s.model.levelHigh
    && 0.0 <= s.model.initialLevel <= 100.0 && s.model.sensorFreshFor > 0
    && s.model.exchangePerHour >= 0.0 && s.model.heaterPerHour >= 0.0
    && s.model.evaporationPerHour >= 0.0 && s.model.fillPerHour > 0.0
    && |s.faults| <= 10000
    && forall i :: 0 <= i < |s.faults| ==> ValidFault(s.faults[i], s.steps)
  }

  predicate ValidFault(f: Fault, steps: int) {
    && 0 <= f.at < steps && f.duration >= 0 && f.kind != UnknownFault
    && (f.kind == SensorNoise ==> f.value >= 0.0)
  }

  datatype Equipment = Equipment(heater: bool, returnPump: bool, circulationPump: bool, ato: bool, dosingPump: bool)

  const ALL_OFF := Equipment(false, false, false, false, false)
  const AT_START := Equipment(false, true, true, false, false)

  /** The part of the runner that is water, probe and equipment, with its place in the random stream. */
  datatype Tank = Tank(
    temperature: real, level: real, desired: Equipment, reported: Equipment,
    lastObserved: real, lastObservedAt: Time, draws: nat)

  datatype Runner = Runner(tank: Tank, broker: bool, storage: bool)

  datatype Acknowledgement = InTime | Delayed | Lost

  datatype Transition = HeaterOff | ReturnPumpOff | CirculationPumpOff | AtoOff | DosingPumpOff

  datatype Alarm =
    | SensorStaleAlarm | HighTemperature | LeakAlarm | ReturnPumpAlarm
    | AcknowledgementLost | AcknowledgementDelayed | RelayStuckAlarm

  datatype Trace = Trace(
    step: nat, now: Time, temperature: real, observed: real, quality: Quality, level: real, leak: bool,
    desired: Equipment, reported: Equipment, acknowledgement: Acknowledgement, broker: bool, storage: bool,
    alarms: set<Alarm>, transitions: set<Transition>)

  // ---------- Faults ----------

  /** The sum of two non-negative 64-bit signed integers, as such an integer. */
  function Wrapped(x: int): int {
    if x >= 0x8000_0000_0000_0000 then x - 0x1_0000_0000_0000_0000 else x
  }

  predicate IsActive(f: Fault, step: nat) {
    step >= f.at && (f.duration == 0 || step < Wrapped(f.at + f.duration))
  }

  function ActiveFaults(faults: seq<Fault>, step: nat): seq<Fault> {
    if faults == [] then []
    else (if IsActive(faults[0], step) then [faults[0]] else []) + ActiveFaults(faults[1..], step)
  }

  predicate HasFault(faults: seq<Fault>, kind: FaultType) {
    exists i :: 0 <= i < |faults| && faults[i].kind == kind
  }

  /** The value of the first fault of the kind. */
  function FaultValue(faults: seq<Fault>, kind: FaultType): real {
    if faults == [] then 0.0 else if faults[0].kind == kind then faults[0].value else FaultValue(faults[1..], kind)
  }

  /** What the active faults do to the tank. */
  datatype Effects = Effects(noise: real, drift: real, stuck: bool, relayOn: bool, leak: bool, pumpFailed: bool)

  function EffectsOf(active: seq<Fault>): Effects {
    Effects(
      FaultValue(active, SensorNoise), FaultValue(active, SensorDrift), HasFault(active, SensorStale),
      HasFault(active, RelayStuckOn), HasFault(active, Leak), HasFault(active, ReturnPumpFailure))
  }

  // ---------- One step ----------

  function Hours(d: Duration): real {
    (d as real) / (HOUR as real)
  }

  function TimeOf(start: Time, step: Duration, n: nat): Time {
    start + n * step
  }

  function SafeTransitions(before: Equipment, after: Equipment): set<Transition> {
    (if before.heater && !after.heater then {HeaterOff} else {})
    + (if before.returnPump && !after.returnPump then {ReturnPumpOff} else {})
    + (if before.circulationPump && !after.circulationPump then {CirculationPumpOff} else {})
    + (if before.ato && !after.ato then {AtoOff} else {})
    + (if before.dosingPump && !after.dosingPump then {DosingPumpOff} else {})
  }

  /** What the probe shows, with which quality, and how many random draws were taken by then. */
  datatype Sensed = Sensed(observed: real, quality: Quality, draws: nat)

  /** `elapsed` is the hours since the start of the scenario. */
  function Sense(m: Model, random: nat -> real, t: Tank, fx: Effects, now: Time, elapsed: real): Sensed {
    var drifted := t.temperature + fx.drift * elapsed;
    var noisy := if fx.noise != 0.0 then drifted + random(t.draws) * fx.noise else drifted;
    var graded := if fx.noise != 0.0 then Suspect else Good;
    var draws := if fx.noise != 0.0 then t.draws + 1 else t.draws;
    if fx.stuck then
      var expired := t.lastObservedAt == 0 || now >= t.lastObservedAt + m.sensorFreshFor;
      Sensed(t.lastObserved, if expired then Stale else graded, draws)
    else Sensed(noisy, graded, draws)
  }

  /** The controller: temperature and level hysteresis, and everything off on a leak. */
  function Decide(m: Model, desired: Equipment, level: real, observed: real, quality: Quality, leak: bool): Equipment {
    var heater :=
      if quality == Stale then false
      else if observed <= m.temperatureLow then true
      else if observed >= m.temperatureHigh then false
      else desired.heater;
    var ato := if level <= m.levelLow then true else if level >= m.levelHigh then false else desired.ato;
    if leak then ALL_OFF else Equipment(heater, true, true, ato, false)
  }

  /** What the hardware does with it. */
  function Obey(desired: Equipment, fx: Effects): Equipment {
    desired.(heater := desired.heater || fx.relayOn, returnPump := desired.returnPump && !fx.pumpFailed)
  }

  /** A step up to the physics: note the reading, decide, obey. */
  function Act(m: Model, t: Tank, sensed: Sensed, fx: Effects, now: Time): Tank {
    var desired := Decide(m, t.desired, t.level, sensed.observed, sensed.quality, fx.leak);
    Tank(
      t.temperature, t.level, desired, Obey(desired, fx),
      if fx.stuck then t.lastObserved else sensed.observed,
      if fx.stuck then t.lastObservedAt else now,
      sensed.draws)
  }

  function Clamp(x: real): real {
    if x < 0.0 then 0.0 else if x > 100.0 then 100.0 else x
  }

  function NextTemperature(m: Model, hours: real, t: real, heater: bool): real {
    t + (m.ambient - t) * (m.exchangePerHour * hours) + (if heater then m.heaterPerHour * hours else 0.0)
  }

  function NextLevel(m: Model, hours: real, level: real, ato: bool): real {
    Clamp(level - m.evaporationPerHour * hours + (if ato then m.fillPerHour * hours else 0.0))
  }

  function AdvancePhysics(m: Model, hours: real, t: Tank): Tank {
    t.(temperature := NextTemperature(m, hours, t.temperature, t.reported.heater),
       level := NextLevel(m, hours, t.level, t.reported.ato))
  }

  /** The scenario without its fault schedule: what a step needs beside the effects. */
  datatype Setting = Setting(model: Model, start: Time, step: Duration, random: nat -> real)

  function SettingOf(s: Scenario, random: nat -> real): Setting {
    Setting(s.model, s.start, s.step, random)
  }

  function SenseAt(g: Setting, t: Tank, fx: Effects, step: nat): Sensed {
    var now := TimeOf(g.start, g.step, step);
    Sense(g.model, g.random, t, fx, now, Hours(now - g.start))
  }

  function ActAt(g: Setting, t: Tank, fx: Effects, step: nat): Tank {
    Act(g.model, t, SenseAt(g, t, fx, step), fx, TimeOf(g.start, g.step, step))
  }

  function TankAt(g: Setting, t: Tank, fx: Effects, step: nat): Tank {
    AdvancePhysics(g.model, Hours(g.step), ActAt(g, t, fx, step))
  }

  function Tick(s: Scenario, random: nat -> real, r: Runner, step: nat): Runner {
    var active := ActiveFaults(s.faults, step);
    Runner(TankAt(SettingOf(s, random), r.tank, EffectsOf(active), step),
           !HasFault(active, BrokerLoss), !HasFault(active, StorageLoss))
  }

  // ---------- The trace of a step ----------

  function ReadingAlarms(m: Model, observed: real, quality: Quality, leak: bool): set<Alarm> {
    (if quality == Stale then {SensorStaleAlarm}
     else if observed <= m.temperatureLow then {}
     else if observed >= m.temperatureHigh then {HighTemperature} else {})
    + (if leak then {LeakAlarm} else {})
  }

  function HardwareAlarms(heater: bool, fx: Effects): set<Alarm> {
    (if fx.pumpFailed then {ReturnPumpAlarm} else {}) + (if fx.relayOn && !heater then {RelayStuckAlarm} else {})
  }

  function Acknowledged(active: seq<Fault>): Acknowledgement {
    if HasFault(active, AckLoss) then Lost else if HasFault(active, AckDelay) then Delayed else InTime
  }

  function AcknowledgementAlarms(a: Acknowledgement): set<Alarm> {
    if a == Lost then {AcknowledgementLost} else if a == Delayed then {AcknowledgementDelayed} else {}
  }

  /** The trace of the tank's step to `next`, as if every acknowledgement came in time and every
      integration were there. */
  function TankTraceOf(g: Setting, t: Tank, fx: Effects, step: nat, next: Tank): Trace {
    var sensed := SenseAt(g, t, fx, step);
    Trace(
      step, TimeOf(g.start, g.step, step), next.temperature, sensed.observed, sensed.quality, next.level, fx.leak,
      next.desired, next.reported, InTime, true, true,
      ReadingAlarms(g.model, sensed.observed, sensed.quality, fx.leak) + HardwareAlarms(next.desired.heater, fx),
      SafeTransitions(t.desired, next.desired))
  }

  function TraceOf(s: Scenario, random: nat -> real, r: Runner, step: nat): Trace {
    var active, next := ActiveFaults(s.faults, step), Tick(s, random, r, step);
    var trace := TankTraceOf(SettingOf(s, random), r.tank, EffectsOf(active), step, next.tank);
    var a := Acknowledged(active);
    trace.(acknowledgement := a, broker := next.broker, storage := next.storage,
           alarms := trace.alarms + AcknowledgementAlarms(a))
  }

  // ---------- Runs ----------

  function Start(s: Scenario): Runner {
    Runner(Tank(s.model.initialTemperature, s.model.initialLevel, AT_START, AT_START, 0.0, 0, 0), true, true)
  }

  type Step = (Runner, nat) -> Runner

  function StepOf(s: Scenario, random: nat -> real): Step {
    (r: Runner, step: nat) => Tick(s, random, r, step)
  }

  function Iterate(f: Step, r: Runner, n: nat): Runner {
    if n == 0 then r else f(Iterate(f, r, n - 1), n - 1)
  }

  /** The state after the first `n` steps. */
  function After(s: Scenario, random: nat -> real, n: nat): Runner {
    Iterate(StepOf(s, random), Start(s), n)
  }

  /** The trace of each step of a run. */
  ghost function TracesOf(s: Scenario, random: nat -> real): nat -> Trace {
    (k: nat) => TraceOf(s, random, After(s, random, k), k)
  }

  ghost predicate Lists(f: nat -> Trace, traces: seq<Trace>) {
    forall k :: 0 <= k < |traces| ==> traces[k] == f(k)
  }

  lemma {:induction false} ListsSnoc(f: nat -> Trace, traces: seq<Trace>, t: Trace)
    requires Lists(f, traces) && t == f(|traces|)
    ensures Lists(f, traces + [t])
  {
  }

  /** The traces of a run's first steps. */
  ghost predicate Shows(s: Scenario, random: nat -> real, traces: seq<Trace>) {
    Lists(TracesOf(s, random), traces)
  }

  lemma {:induction false} AfterNext(s: Scenario, random: nat -> real, step: nat)
    ensures After(s, random, step + 1) == Tick(s, random, After(s, random, step), step)
  {
    assert After(s, random, step + 1) == StepOf(s, random)(Iterate(StepOf(s, random), Start(s), step), step);
  }

  /** `r` is where the steps behind `traces` lead. */
  ghost predicate Reached(s: Scenario, random: nat -> real, traces: seq<Trace>, r: Runner) {
    r == After(s, random, |traces|) && Shows(s, random, traces)
  }

  lemma {:induction false} ReachedNext(s: Scenario, random: nat -> real, traces: seq<Trace>, r: Runner)
    requires Reached(s, random, traces, r)
    ensures Reached(s, random, traces + [TraceOf(s, random, r, |traces|)], Tick(s, random, r, |traces|))
  {
    AfterNext(s, random, |traces|);
    ListsSnoc(TracesOf(s, random), traces, TraceOf(s, random, r, |traces|));
  }

  // ---------- Infrastructure faults touch nothing physical ----------

  predicate Infrastructure(kind: FaultType) {
    kind == BrokerLoss || kind == StorageLoss || kind == AckDelay || kind == AckLoss
  }

  function Physical(faults: seq<Fault>): seq<Fault> {
    if faults == [] then []
    else (if Infrastructure(faults[0].kind) then [] else [faults[0]]) + Physical(faults[1..])
  }

  /** The scenario without its broker, storage and acknowledgement faults. */
  function WithoutInfrastructure(s: Scenario): Scenario {
    s.(faults := Physical(s.faults))
  }

  lemma {:induction false} ActiveCons(f: Fault, rest: seq<Fault>, step: nat)
    ensures ActiveFaults([f] + rest, step) == (if IsActive(f, step) then [f] else []) + ActiveFaults(rest, step)
  {
    assert ([f] + rest)[1..] == rest;
  }

  lemma {:induction false} PhysicalCons(f: Fault, rest: seq<Fault>)
    ensures Physical([f] + rest) == (if Infrastructure(f.kind) then [] else [f]) + Physical(rest)
  {
    assert ([f] + rest)[1..] == rest;
  }

  lemma {:induction false} ActivePhysical(faults: seq<Fault>, step: nat)
    ensures ActiveFaults(Physical(faults), step) == Physical(ActiveFaults(faults, step))
    decreases |faults|
  {
    if faults != [] {
      var f, rest := faults[0], faults[1..];
      ActivePhysical(rest, step);
      assert faults == [f] + rest;
      ActiveCons(f, rest, step);
      PhysicalCons(f, rest);
      ActiveCons(f, Physical(rest), step);
      PhysicalCons(f, ActiveFaults(rest, step));
      assert [] + Physical(rest) == Physical(rest) && [] + ActiveFaults(rest, step) == ActiveFaults(rest, step);
    }
  }

  lemma {:induction false} PhysicalKeeps(faults: seq<Fault>, kind: FaultType)
    requires !Infrastructure(kind)
    ensures HasFault(Physical(faults), kind) == HasFault(faults, kind)
    ensures FaultValue(Physical(faults), kind) == FaultValue(faults, kind)
    decreases |faults|
  {
    if faults != [] {
      var rest := faults[1..];
      PhysicalKeeps(rest, kind);
      HasFaultCons(faults[0], rest, kind);
      HasFaultCons(faults[0], Physical(rest), kind);
      assert faults == [faults[0]] + rest;
      assert [] + Physical(rest) == Physical(rest);
      assert ([faults[0]] + Physical(rest))[1..] == Physical(rest);
    }
  }

  lemma {:induction false} HasFaultCons(f: Fault, rest: seq<Fault>, kind: FaultType)
    ensures HasFault([f] + rest, kind) <==> f.kind == kind || HasFault(rest, kind)
  {
    assert ([f] + rest)[0] == f;
    if HasFault(rest, kind) {
      var i :| 0 <= i < |rest| && rest[i].kind == kind;
      assert ([f] + rest)[i + 1].kind == kind;
    }
  }

  lemma {:induction false} SameEffects(faults: seq<Fault>, step: nat)
    ensures EffectsOf(ActiveFaults(Physical(faults), step)) == EffectsOf(ActiveFaults(faults, step))
  {
    var active := ActiveFaults(faults, step);
    ActivePhysical(faults, step);
    PhysicalKeeps(active, SensorNoise);
    PhysicalKeeps(active, SensorDrift);
    PhysicalKeeps(active, SensorStale);
    PhysicalKeeps(active, RelayStuckOn);
    PhysicalKeeps(active, Leak);
    PhysicalKeeps(active, ReturnPumpFailure);
  }

  /** A trace without acknowledgements and the availability of integrations. */
  function TankTrace(t: Trace): Trace {
    t.(acknowledgement := InTime, broker := true, storage := true,
       alarms := t.alarms - {AcknowledgementLost, AcknowledgementDelayed})
  }

  lemma {:induction false} OnlyTankAlarms(g: Setting, t: Tank, fx: Effects, step: nat, next: Tank)
    ensures AcknowledgementLost !in TankTraceOf(g, t, fx, step, next).alarms
    ensures AcknowledgementDelayed !in TankTraceOf(g, t, fx, step, next).alarms
  {
  }

  lemma {:induction false} TankPart(trace: Trace, a: Acknowledgement, broker: bool, storage: bool)
    requires trace.acknowledgement == InTime && trace.broker && trace.storage
    requires AcknowledgementLost !in trace.alarms && AcknowledgementDelayed !in trace.alarms
    ensures TankTrace(trace.(acknowledgement := a, broker := broker, storage := storage,
                             alarms := trace.alarms + AcknowledgementAlarms(a))) == trace
  {
    assert trace.alarms + AcknowledgementAlarms(a) - {AcknowledgementLost, AcknowledgementDelayed} == trace.alarms;
  }

  lemma {:induction false} TankPartOfTrace(s: Scenario, random: nat -> real, r: Runner, step: nat, trace: Trace)
    requires trace == TankTraceOf(SettingOf(s, random), r.tank, EffectsOf(ActiveFaults(s.faults, step)), step,
                                  Tick(s, random, r, step).tank)
    ensures TankTrace(TraceOf(s, random, r, step)) == trace
  {
    var active, next := ActiveFaults(s.faults, step), Tick(s, random, r, step);
    OnlyTankAlarms(SettingOf(s, random), r.tank, EffectsOf(active), step, next.tank);
    TankPart(trace, Acknowledged(active), next.broker, next.storage);
  }

  lemma {:induction false} TraceIgnoresInfrastructure(s: Scenario, random: nat -> real, r: Runner, p: Runner, step: nat)
    requires r.tank == p.tank
    ensures TankTrace(TraceOf(s, random, r, step)) == TankTrace(TraceOf(WithoutInfrastructure(s), random, p, step))
  {
    SameEffects(s.faults, step);
    var trace := TankTraceOf(SettingOf(s, random), r.tank, EffectsOf(ActiveFaults(s.faults, step)), step,
                             Tick(s, random, r, step).tank);
    TankPartOfTrace(s, random, r, step, trace);
    TankPartOfTrace(WithoutInfrastructure(s), random, p, step, trace);
  }

  ghost predicate AgreeOnTank(f: Step, g: Step) {
    forall r: Runner, p: Runner, step: nat :: r.tank == p.tank ==> f(r, step).tank == g(p, step).tank
  }

  lemma {:induction false} RunsAgreeOnTank(f: Step, g: Step, r: Runner, n: nat)
    requires AgreeOnTank(f, g)
    ensures Iterate(f, r, n).tank == Iterate(g, r, n).tank
  {
    if n > 0 {
      RunsAgreeOnTank(f, g, r, n - 1);
    }
  }

  lemma {:induction false} StepsAgreeOnTank(s: Scenario, random: nat -> real)
    ensures AgreeOnTank(StepOf(s, random), StepOf(WithoutInfrastructure(s), random))
  {
    forall r: Runner, p: Runner, step: nat | r.tank == p.tank
      ensures StepOf(s, random)(r, step).tank == StepOf(WithoutInfrastructure(s), random)(p, step).tank
    {
      SameEffects(s.faults, step);
    }
  }

  lemma {:induction false} PhysicalStaysValid(faults: seq<Fault>, steps: int)
    requires forall i :: 0 <= i < |faults| ==> ValidFault(faults[i], steps)
    ensures |Physical(faults)| <= |faults|
    ensures forall i :: 0 <= i < |Physical(faults)| ==> ValidFault(Physical(faults)[i], steps)
    decreases |faults|
  {
    if faults != [] {
      PhysicalStaysValid(faults[1..], steps);
    }
  }

  /** Main result: taking all broker, storage and acknowledgement faults out of a valid scenario
      leaves a valid scenario, with the same temperature, level, observation, quality, desired
      and reported equipment, safe transitions and position in the random stream at every step,
      and the same alarms but for those about acknowledgements. */
  lemma {:induction false} InfrastructureFaultsAreInvisible(s: Scenario, random: nat -> real, n: nat)
    requires Valid(s)
    ensures Valid(WithoutInfrastructure(s))
    ensures After(s, random, n).tank == After(WithoutInfrastructure(s), random, n).tank
    ensures TankTrace(TraceOf(s, random, After(s, random, n), n))
         == TankTrace(TraceOf(WithoutInfrastructure(s), random, After(WithoutInfrastructure(s), random, n), n))
  {
    var bare := WithoutInfrastructure(s);
    PhysicalStaysValid(s.faults, s.steps);
    StepsAgreeOnTank(s, random);
    RunsAgreeOnTank(StepOf(s, random), StepOf(bare, random), Start(s), n);
    TraceIgnoresInfrastructure(s, random, After(s, random, n), After(bare, random, n), n);
  }

  // ---------- Bounds ----------

  function Least(a: real, b: real): real {
    if a <= b then a else b
  }

  function Most(a: real, b: real): real {
    if a >= b then a else b
  }

  lemma {:induction false} Product(a: real, b: real)
    requires a >= 0.0 && b >= 0.0
    ensures a * b >= 0.0
  {
  }

  lemma {:induction false} ShareOf(gap: real, share: real) returns (part: real)
    requires gap >= 0.0 && 0.0 <= share <= 1.0
    ensures part == gap * share && 0.0 <= part <= gap
  {
    var rest := 1.0 - share;
    Product(gap, share);
    Product(gap, rest);
    assert gap * share + gap * rest == gap;
    part := gap * share;
  }

  lemma {:induction false} Negated(a: real, b: real, product: real)
    requires product == (-a) * b
    ensures -product == a * b
  {
  }

  /** An exchange of at most the whole difference moves towards the ambient, and not past it. */
  lemma {:induction false} ExchangeMovesTowards(gap: real, share: real) returns (moved: real)
    requires 0.0 <= share <= 1.0
    ensures moved == gap * share
    ensures if gap >= 0.0 then 0.0 <= moved <= gap else gap <= moved <= 0.0
  {
    if gap >= 0.0 {
      moved := ShareOf(gap, share);
    } else {
      var part := ShareOf(-gap, share);
      Negated(gap, share, part);
      moved := -part;
    }
  }

  /** Faults that let the heater run against the true temperature. */
  predicate Misleading(kind: FaultType) {
    kind == SensorNoise || kind == SensorDrift || kind == SensorStale || kind == RelayStuckOn
  }

  ghost predicate Faithful(s: Scenario) {
    forall i :: 0 <= i < |s.faults| ==> !Misleading(s.faults[i].kind)
  }

  lemma {:induction false} AbsentIsInactive(faults: seq<Fault>, step: nat, kind: FaultType)
    requires forall i :: 0 <= i < |faults| ==> faults[i].kind != kind
    ensures !HasFault(ActiveFaults(faults, step), kind) && FaultValue(ActiveFaults(faults, step), kind) == 0.0
    decreases |faults|
  {
    if faults != [] {
      var rest := ActiveFaults(faults[1..], step);
      AbsentIsInactive(faults[1..], step, kind);
      HasFaultCons(faults[0], rest, kind);
      assert ([faults[0]] + rest)[1..] == rest && [] + rest == rest;
    }
  }

  /** Without misleading faults the heater is off whenever the water is at the upper limit. */
  lemma {:induction false} HeaterOffWhenHot(g: Setting, t: Tank, fx: Effects, step: nat)
    requires fx.noise == 0.0 && fx.drift == 0.0 && !fx.stuck && !fx.relayOn
    requires g.model.temperatureLow < g.model.temperatureHigh <= t.temperature
    ensures !ActAt(g, t, fx, step).reported.heater
  {
    assert SenseAt(g, t, fx, step).observed == t.temperature;
  }

  function Floor(m: Model): real {
    Least(m.initialTemperature, m.ambient)
  }

  function Ceiling(m: Model, hours: real): real {
    Most(Most(m.initialTemperature, m.ambient), m.temperatureHigh) + m.heaterPerHour * hours
  }

  lemma {:induction false} WarmingStaysInBounds(
    t: real, ambient: real, moved: real, heat: real, low: real, limit: real, top: real)
    requires if ambient >= t then 0.0 <= moved <= ambient - t else ambient - t <= moved <= 0.0
    requires 0.0 <= heat && low <= ambient <= top && limit <= top && low <= t <= top + heat
    ensures low <= t + moved <= top + heat
    ensures t < limit ==> low <= t + moved + heat <= top + heat
  {
  }

  lemma {:induction false} PhysicsStaysInBounds(m: Model, hours: real, t: real, heater: bool)
    requires 0.0 <= m.exchangePerHour * hours <= 1.0 && 0.0 <= m.heaterPerHour * hours
    requires t >= m.temperatureHigh ==> !heater
    requires Floor(m) <= t <= Ceiling(m, hours)
    ensures Floor(m) <= NextTemperature(m, hours, t, heater) <= Ceiling(m, hours)
  {
    var moved := ExchangeMovesTowards(m.ambient - t, m.exchangePerHour * hours);
    var top := Most(Most(m.initialTemperature, m.ambient), m.temperatureHigh);
    WarmingStaysInBounds(t, m.ambient, moved, m.heaterPerHour * hours, Floor(m), m.temperatureHigh, top);
    assert NextTemperature(m, hours, t, heater) == t + moved + (if heater then m.heaterPerHour * hours else 0.0);
  }

  lemma {:induction false} AdvanceStaysInBounds(m: Model, hours: real, r: Tank)
    requires 0.0 <= m.exchangePerHour * hours <= 1.0 && 0.0 <= m.heaterPerHour * hours
    requires r.temperature >= m.temperatureHigh ==> !r.reported.heater
    requires Floor(m) <= r.temperature <= Ceiling(m, hours)
    ensures Floor(m) <= AdvancePhysics(m, hours, r).temperature <= Ceiling(m, hours)
  {
    PhysicsStaysInBounds(m, hours, r.temperature, r.reported.heater);
  }

  ghost predicate KeepsWithin(f: Step, low: real, high: real) {
    forall r: Runner, step: nat :: low <= r.tank.temperature <= high ==> low <= f(r, step).tank.temperature <= high
  }

  lemma {:induction false} RunStaysWithin(f: Step, low: real, high: real, r: Runner, n: nat)
    requires KeepsWithin(f, low, high) && low <= r.tank.temperature <= high
    ensures low <= Iterate(f, r, n).tank.temperature <= high
  {
    if n > 0 {
      RunStaysWithin(f, low, high, r, n - 1);
    }
  }

  lemma {:induction false} TankStaysInBounds(g: Setting, t: Tank, fx: Effects, step: nat)
    requires fx.noise == 0.0 && fx.drift == 0.0 && !fx.stuck && !fx.relayOn
    requires g.model.temperatureLow < g.model.temperatureHigh
    requires 0.0 <= g.model.exchangePerHour * Hours(g.step) <= 1.0 && 0.0 <= g.model.heaterPerHour * Hours(g.step)
    requires Floor(g.model) <= t.temperature <= Ceiling(g.model, Hours(g.step))
    ensures Floor(g.model) <= TankAt(g, t, fx, step).temperature <= Ceiling(g.model, Hours(g.step))
  {
    if t.temperature >= g.model.temperatureHigh {
      HeaterOffWhenHot(g, t, fx, step);
    }
    AdvanceStaysInBounds(g.model, Hours(g.step), ActAt(g, t, fx, step));
  }

  lemma {:induction false} FaithfulEffects(s: Scenario, step: nat)
    requires Faithful(s)
    ensures var fx := EffectsOf(ActiveFaults(s.faults, step));
            fx.noise == 0.0 && fx.drift == 0.0 && !fx.stuck && !fx.relayOn
  {
    AbsentIsInactive(s.faults, step, SensorNoise);
    AbsentIsInactive(s.faults, step, SensorDrift);
    AbsentIsInactive(s.faults, step, SensorStale);
    AbsentIsInactive(s.faults, step, RelayStuckOn);
  }

  /** Main result: with an ambient exchange of at most the whole difference a step, and
      without noise, drift, stale or stuck-relay faults, the water never leaves the interval
      from the lower of start and ambient to one heating step above the highest of start,
      ambient and upper limit. */
  lemma {:induction false} TemperatureBounded(s: Scenario, random: nat -> real, n: nat)
    requires Valid(s) && Faithful(s) && s.model.exchangePerHour * Hours(s.step) <= 1.0
    ensures Floor(s.model) <= After(s, random, n).tank.temperature <= Ceiling(s.model, Hours(s.step))
  {
    var low, high := Floor(s.model), Ceiling(s.model, Hours(s.step));
    Product(s.model.exchangePerHour, Hours(s.step));
    Product(s.model.heaterPerHour, Hours(s.step));
    forall r: Runner, step: nat | low <= r.tank.temperature <= high
      ensures low <= StepOf(s, random)(r, step).tank.temperature <= high
    {
      FaithfulEffects(s, step);
      TankStaysInBounds(SettingOf(s, random), r.tank, EffectsOf(ActiveFaults(s.faults, step)), step);
    }
    RunStaysWithin(StepOf(s, random), low, high, Start(s), n);
  }

  /** In every valid scenario, whatever its faults, the level stays a percentage. */
  lemma {:induction false} LevelBounded(s: Scenario, random: nat -> real, n: nat)
    requires Valid(s)
    ensures 0.0 <= After(s, random, n).tank.level <= 100.0
  {
  }

  // ---------- When the probe counts as stale ----------

  predicate StuckAt(s: Scenario, step: nat) {
    HasFault(ActiveFaults(s.faults, step), SensorStale)
  }

  function At(s: Scenario, step: nat): Time {
    TimeOf(s.start, s.step, step)
  }

  /** `k` is the last step before `n` at which the probe delivered. */
  ghost predicate LastReading(s: Scenario, n: nat, k: nat) {
    k < n && !StuckAt(s, k) && forall j: nat :: k < j < n ==> StuckAt(s, j)
  }

  /** How a step treats the last delivered reading: kept while stuck, else dated to the step. */
  ghost predicate Remembers(s: Scenario, f: Step) {
    forall r: Runner, step: nat ::
      var next := f(r, step);
      if StuckAt(s, step) then next.tank.lastObservedAt == r.tank.lastObservedAt && next.tank.lastObserved == r.tank.lastObserved
      else next.tank.lastObservedAt == At(s, step)
  }

  lemma {:induction false} HoldsLastReading(s: Scenario, f: Step, r: Runner, n: nat, k: nat)
    requires Remembers(s, f) && LastReading(s, n, k)
    ensures Iterate(f, r, n).tank.lastObservedAt == At(s, k)
    ensures Iterate(f, r, n).tank.lastObserved == Iterate(f, r, k + 1).tank.lastObserved
    decreases n
  {
    if k < n - 1 {
      assert StuckAt(s, n - 1);
      HoldsLastReading(s, f, r, n - 1, k);
    }
  }

  lemma {:induction false} HoldsNothing(s: Scenario, f: Step, r: Runner, n: nat)
    requires Remembers(s, f) && forall j: nat :: j < n ==> StuckAt(s, j)
    ensures Iterate(f, r, n).tank.lastObservedAt == r.tank.lastObservedAt
  {
    if n > 0 {
      assert StuckAt(s, n - 1);
      HoldsNothing(s, f, r, n - 1);
    }
  }

  lemma {:induction false} FindLastReading(s: Scenario, n: nat) returns (k: int)
    ensures k < 0 ==> forall j: nat :: j < n ==> StuckAt(s, j)
    ensures k >= 0 ==> LastReading(s, n, k)
  {
    if n == 0 {
      k := -1;
    } else if !StuckAt(s, n - 1) {
      k := n - 1;
    } else {
      k := FindLastReading(s, n - 1);
    }
  }

  lemma {:induction false} LastReadingUnique(s: Scenario, n: nat, k: nat, j: nat)
    requires LastReading(s, n, k) && LastReading(s, n, j)
    ensures k == j
  {
    assert k < j ==> StuckAt(s, j);
    assert j < k ==> StuckAt(s, k);
  }

  /** One step from a known state: stale exactly when stuck with nothing recent held. */
  lemma {:induction false} StaleFromState(s: Scenario, random: nat -> real, r: Runner, step: nat)
    ensures TraceOf(s, random, r, step).quality == Stale <==>
            && StuckAt(s, step)
            && (r.tank.lastObservedAt == 0 || At(s, step) >= r.tank.lastObservedAt + s.model.sensorFreshFor)
    ensures TraceOf(s, random, r, step).quality == Stale ==> !Tick(s, random, r, step).tank.desired.heater
    ensures StuckAt(s, step) ==> TraceOf(s, random, r, step).observed == r.tank.lastObserved
  {
  }

  /** The last delivery before step `n` that is dated, and younger than the window at `n`. */
  ghost predicate Recent(s: Scenario, n: nat, k: nat) {
    LastReading(s, n, k) && At(s, k) != 0 && At(s, n) < At(s, k) + s.model.sensorFreshFor
  }

  lemma {:induction false} RecentIsHeld(s: Scenario, f: Step, r: Runner, n: nat)
    requires Remembers(s, f) && r.tank.lastObservedAt == 0
    ensures (exists k: nat :: Recent(s, n, k)) <==>
            && Iterate(f, r, n).tank.lastObservedAt != 0
            && At(s, n) < Iterate(f, r, n).tank.lastObservedAt + s.model.sensorFreshFor
  {
    var last := FindLastReading(s, n);
    if last < 0 {
      HoldsNothing(s, f, r, n);
    } else {
      HoldsLastReading(s, f, r, n, last);
      assert Recent(s, n, last) <==> At(s, last) != 0 && At(s, n) < At(s, last) + s.model.sensorFreshFor;
      forall k: nat | LastReading(s, n, k) ensures k == last {
        LastReadingUnique(s, n, k, last);
      }
    }
  }

  lemma {:induction false} StepRemembers(s: Scenario, random: nat -> real)
    ensures Remembers(s, StepOf(s, random))
  {
  }

  /** Main result: in every run, a step's reading is stale exactly when the probe is stuck and
      its last delivery, if any, is at least the freshness window old (the zero time counts as
      no delivery); the heater is then not wanted. */
  lemma {:induction false} StaleExactlyWhen(s: Scenario, random: nat -> real, n: nat)
    ensures TraceOf(s, random, After(s, random, n), n).quality == Stale <==>
            StuckAt(s, n) && !exists k: nat :: Recent(s, n, k)
    ensures TraceOf(s, random, After(s, random, n), n).quality == Stale ==> !After(s, random, n + 1).tank.desired.heater
  {
    StepRemembers(s, random);
    RecentIsHeld(s, StepOf(s, random), Start(s), n);
    StaleFromState(s, random, After(s, random, n), n);
  }

  /** A stuck probe shows the value it showed at its last delivery. */
  lemma {:induction false} StuckProbeRepeats(s: Scenario, random: nat -> real, n: nat, k: nat)
    requires StuckAt(s, n) && LastReading(s, n, k)
    ensures TraceOf(s, random, After(s, random, n), n).observed == TraceOf(s, random, After(s, random, k), k).observed
  {
    StepRemembers(s, random);
    HoldsLastReading(s, StepOf(s, random), Start(s), n, k);
    StaleFromState(s, random, After(s, random, n), n);
  }

  // ---------- What the controller wants and what the alarms say ----------

  predicate Faulty(s: Scenario, step: nat, kind: FaultType) {
    HasFault(ActiveFaults(s.faults, step), kind)
  }

  /** Main result: what a step wants, from what it shows. On a leak nothing runs. Otherwise
      the heater runs exactly when the reading is not stale and is at or below the lower
      limit, or below the upper one with the heater already wanted; the refill likewise by
      level; the two pumps run and the dosing pump does not. */
  lemma {:induction false} WantedExactly(s: Scenario, random: nat -> real, r: Runner, step: nat)
    requires Valid(s)
    ensures var t, before, m := TraceOf(s, random, r, step), r.tank.desired, s.model;
            && t.leak == Faulty(s, step, Leak)
            && (t.leak ==> t.desired == Equipment(false, false, false, false, false))
            && (!t.leak ==>
                  && (t.desired.heater <==>
                        t.quality != Stale
                        && (t.observed <= m.temperatureLow || (t.observed < m.temperatureHigh && before.heater)))
                  && (t.desired.ato <==> r.tank.level <= m.levelLow || (r.tank.level < m.levelHigh && before.ato))
                  && t.desired.returnPump && t.desired.circulationPump && !t.desired.dosingPump)
  {
  }

  /** What the hardware reports is what is wanted, but for a relay stuck on and a failed pump. */
  lemma {:induction false} ReportedExactly(s: Scenario, random: nat -> real, r: Runner, step: nat)
    ensures var t := TraceOf(s, random, r, step);
            && (t.reported.heater <==> t.desired.heater || Faulty(s, step, RelayStuckOn))
            && (t.reported.returnPump <==> t.desired.returnPump && !Faulty(s, step, ReturnPumpFailure))
            && t.reported.circulationPump == t.desired.circulationPump && t.reported.ato == t.desired.ato
            && t.reported.dosingPump == t.desired.dosingPump
            && (t.acknowledgement == Lost <==> Faulty(s, step, AckLoss))
            && (t.acknowledgement == Delayed <==> Faulty(s, step, AckDelay) && !Faulty(s, step, AckLoss))
            && (t.broker <==> !Faulty(s, step, BrokerLoss)) && (t.storage <==> !Faulty(s, step, StorageLoss))
  {
  }

  /** Each alarm of a step, exactly when. */
  lemma {:induction false} AlarmsExactly(s: Scenario, random: nat -> real, r: Runner, step: nat)
    requires Valid(s)
    ensures var t := TraceOf(s, random, r, step);
            && (SensorStaleAlarm in t.alarms <==> t.quality == Stale)
            && (HighTemperature in t.alarms <==> t.quality != Stale && t.observed >= s.model.temperatureHigh)
            && (LeakAlarm in t.alarms <==> t.leak)
            && (ReturnPumpAlarm in t.alarms <==> Faulty(s, step, ReturnPumpFailure))
            && (RelayStuckAlarm in t.alarms <==> t.reported.heater && !t.desired.heater)
            && (AcknowledgementLost in t.alarms <==> t.acknowledgement == Lost)
            && (AcknowledgementDelayed in t.alarms <==> t.acknowledgement == Delayed)
  {
    var fx, next := EffectsOf(ActiveFaults(s.faults, step)), Tick(s, random, r, step).tank;
    TankAlarmsExactly(SettingOf(s, random), r.tank, fx, step, next);
    ReportedExactly(s, random, r, step);
  }

  lemma {:induction false} TankAlarmsExactly(g: Setting, t: Tank, fx: Effects, step: nat, next: Tank)
    requires g.model.temperatureLow < g.model.temperatureHigh
    ensures var trace := TankTraceOf(g, t, fx, step, next);
            && (SensorStaleAlarm in trace.alarms <==> trace.quality == Stale)
            && (HighTemperature in trace.alarms <==> trace.quality != Stale && trace.observed >= g.model.temperatureHigh)
            && (LeakAlarm in trace.alarms <==> fx.leak) && (ReturnPumpAlarm in trace.alarms <==> fx.pumpFailed)
            && (RelayStuckAlarm in trace.alarms <==> fx.relayOn && !next.desired.heater)
            && AcknowledgementLost !in trace.alarms && AcknowledgementDelayed !in trace.alarms
  {
  }

  /** Safe transitions are what was wanted before and is not wanted now. */
  lemma {:induction false} TransitionsExactly(s: Scenario, random: nat -> real, r: Runner, step: nat)
    ensures var t, before := TraceOf(s, random, r, step), r.tank.desired;
            && (HeaterOff in t.transitions <==> before.heater && !t.desired.heater)
            && (ReturnPumpOff in t.transitions <==> before.returnPump && !t.desired.returnPump)
            && (CirculationPumpOff in t.transitions <==> before.circulationPump && !t.desired.circulationPump)
            && (AtoOff in t.transitions <==> before.ato && !t.desired.ato)
            && (DosingPumpOff in t.transitions <==> before.dosingPump && !t.desired.dosingPump)
  {
    OffExactly(r.tank.desired, Tick(s, random, r, step).tank.desired);
  }

  lemma {:induction false} OffExactly(before: Equipment, after: Equipment)
    ensures var off := SafeTransitions(before, after);
            && (HeaterOff in off <==> before.heater && !after.heater)
            && (ReturnPumpOff in off <==> before.returnPump && !after.returnPump)
            && (CirculationPumpOff in off <==> before.circulationPump && !after.circulationPump)
            && (AtoOff in off <==> before.ato && !after.ato)
            && (DosingPumpOff in off <==> before.dosingPump && !after.dosingPump)
  {
  }

  /** The water, the drift since the start, and noise if there is any. */
  ghost predicate Delivers(
      observed: real, quality: Quality, temperature: real, drift: real, elapsed: real, noise: real, draw: real)
  {
    && observed == temperature + drift * elapsed + (if noise == 0.0 then 0.0 else draw * noise)
    && quality == (if noise == 0.0 then Good else Suspect)
  }

  /** What the probe shows while it delivers. */
  lemma {:induction false} ObservedExactly(s: Scenario, random: nat -> real, r: Runner, step: nat)
    requires !StuckAt(s, step)
    ensures var t, active := TraceOf(s, random, r, step), ActiveFaults(s.faults, step);
            Delivers(t.observed, t.quality, r.tank.temperature, FaultValue(active, SensorDrift), Hours(step * s.step),
                     FaultValue(active, SensorNoise), random(r.tank.draws))
  {
    DeliveredExactly(SettingOf(s, random), r.tank, EffectsOf(ActiveFaults(s.faults, step)), step);
  }

  /** Noise is drawn exactly when there is any, once a step, whatever else is wrong. */
  lemma {:induction false} DrawsExactly(s: Scenario, random: nat -> real, r: Runner, step: nat)
    ensures Tick(s, random, r, step).tank.draws
         == r.tank.draws + (if FaultValue(ActiveFaults(s.faults, step), SensorNoise) == 0.0 then 0 else 1)
  {
  }

  lemma {:induction false} DeliveredExactly(g: Setting, t: Tank, fx: Effects, step: nat)
    requires !fx.stuck
    ensures var sensed := SenseAt(g, t, fx, step);
            Delivers(sensed.observed, sensed.quality, t.temperature, fx.drift, Hours(step * g.step), fx.noise, g.random(t.draws))
  {
    assert TimeOf(g.start, g.step, step) - g.start == step * g.step;
  }

  // ---------- The physics over a run ----------

  function Power(x: real, n: nat): real {
    if n == 0 then 1.0 else x * Power(x, n - 1)
  }

  /** A leak from the first step to the last, and no relay stuck on. */
  ghost predicate Leaks(s: Scenario) {
    && (exists i :: 0 <= i < |s.faults| && s.faults[i].kind == Leak && s.faults[i].at == 0 && s.faults[i].duration == 0)
    && forall i :: 0 <= i < |s.faults| ==> s.faults[i].kind != RelayStuckOn
  }

  lemma {:induction false} ActiveIff(faults: seq<Fault>, step: nat, kind: FaultType)
    ensures HasFault(ActiveFaults(faults, step), kind) <==>
            exists i :: 0 <= i < |faults| && faults[i].kind == kind && IsActive(faults[i], step)
    decreases |faults|
  {
    if faults != [] {
      var f, rest := faults[0], faults[1..];
      ActiveIff(rest, step, kind);
      HasFaultCons(f, ActiveFaults(rest, step), kind);
      assert [] + ActiveFaults(rest, step) == ActiveFaults(rest, step);
      assert forall i :: 0 <= i < |rest| ==> rest[i] == faults[i + 1];
      if i :| 0 <= i < |rest| && rest[i].kind == kind && IsActive(rest[i], step) {
        assert faults[i + 1].kind == kind && IsActive(faults[i + 1], step);
      }
      if i :| 0 <= i < |faults| && faults[i].kind == kind && IsActive(faults[i], step) {
        assert i > 0 ==> rest[i - 1] == faults[i];
      }
    }
  }

  /** Active from its step on, for good or for its number of steps. */
  lemma {:induction false} ActiveExactly(f: Fault, step: nat)
    requires f.at >= 0 && f.duration >= 0 && f.at + f.duration < 0x8000_0000_0000_0000
    ensures IsActive(f, step) <==> f.at <= step && (f.duration == 0 || step - f.at < f.duration)
  {
  }

  lemma {:induction false} LeakEffects(s: Scenario, step: nat)
    requires Leaks(s)
    ensures var fx := EffectsOf(ActiveFaults(s.faults, step)); fx.leak && !fx.relayOn
  {
    ActiveIff(s.faults, step, Leak);
    ActiveIff(s.faults, step, RelayStuckOn);
    var i :| 0 <= i < |s.faults| && s.faults[i].kind == Leak && s.faults[i].at == 0 && s.faults[i].duration == 0;
    assert IsActive(s.faults[i], step);
  }

  /** A step with everything off moves the gap to ambient by the exchange, and the level by
      evaporation down to empty. */
  lemma {:induction false} IdleStep(m: Model, hours: real, t: Tank)
    requires !t.reported.heater && !t.reported.ato
    ensures var t', share := AdvancePhysics(m, hours, t), m.exchangePerHour * hours;
            && t'.temperature - m.ambient == (t.temperature - m.ambient) * (1.0 - share)
            && (0.0 <= t.level <= 100.0 && m.evaporationPerHour * hours >= 0.0 ==>
                  t'.level == if t.level >= m.evaporationPerHour * hours then t.level - m.evaporationPerHour * hours else 0.0)
  {
    var gap, share := m.ambient - t.temperature, m.exchangePerHour * hours;
    GapShrinks(gap, share);
  }

  lemma {:induction false} GapShrinks(gap: real, share: real)
    ensures gap * share - gap == (-gap) * (1.0 - share)
  {
  }

  /** A step with the heater on adds one step of heating to that, and one with the refill on
      one step of filling, up to full. */
  lemma {:induction false} DrivenStep(m: Model, hours: real, t: Tank)
    ensures var off := t.(reported := t.reported.(heater := false));
            AdvancePhysics(m, hours, t).temperature
            == AdvancePhysics(m, hours, off).temperature + (if t.reported.heater then m.heaterPerHour * hours else 0.0)
    ensures var level := t.level - m.evaporationPerHour * hours + (if t.reported.ato then m.fillPerHour * hours else 0.0);
            0.0 <= level <= 100.0 ==> AdvancePhysics(m, hours, t).level == level
    ensures 0.0 <= AdvancePhysics(m, hours, t).level <= 100.0
  {
  }

  lemma {:induction false} LeakStepCools(g: Setting, t: Tank, fx: Effects, step: nat)
    requires fx.leak && !fx.relayOn
    ensures TankAt(g, t, fx, step).temperature - g.model.ambient
         == (t.temperature - g.model.ambient) * (1.0 - g.model.exchangePerHour * Hours(g.step))
  {
    var acted := ActAt(g, t, fx, step);
    assert !acted.reported.heater && !acted.reported.ato && acted.temperature == t.temperature;
    IdleStep(g.model, Hours(g.step), acted);
  }

  ghost predicate Cools(f: Step, ambient: real, keep: real) {
    forall r: Runner, step: nat :: f(r, step).tank.temperature - ambient == (r.tank.temperature - ambient) * keep
  }

  /** The gap to ambient is the one at the start, shrunk `n` times by the same factor. */
  ghost predicate Cooled(temperature: real, ambient: real, start: real, keep: real, n: nat) {
    temperature - ambient == (start - ambient) * Power(keep, n)
  }

  lemma {:induction false} GapPower(f: Step, ambient: real, keep: real, r: Runner, n: nat)
    requires Cools(f, ambient, keep)
    ensures Cooled(Iterate(f, r, n).tank.temperature, ambient, r.tank.temperature, keep, n)
  {
    if n > 0 {
      GapPower(f, ambient, keep, r, n - 1);
      var gap, p := r.tank.temperature - ambient, Power(keep, n - 1);
      Reassociate(gap, p, keep);
    }
  }

  lemma {:induction false} Reassociate(gap: real, p: real, keep: real)
    ensures (gap * p) * keep == gap * (keep * p)
  {
  }

  /** Main result: while it leaks, whatever else is wrong but a relay stuck on, the gap between
      water and ambient shrinks by the same factor every step. */
  lemma {:induction false} LeakingTankCools(s: Scenario, random: nat -> real, n: nat)
    requires Leaks(s)
    ensures Cooled(After(s, random, n).tank.temperature, s.model.ambient, s.model.initialTemperature,
                   1.0 - s.model.exchangePerHour * Hours(s.step), n)
  {
    var keep := 1.0 - s.model.exchangePerHour * Hours(s.step);
    LeakCools(s, random, keep);
    GapPower(StepOf(s, random), s.model.ambient, keep, Start(s), n);
  }

  lemma {:induction false} LeakCools(s: Scenario, random: nat -> real, keep: real)
    requires Leaks(s) && keep == 1.0 - s.model.exchangePerHour * Hours(s.step)
    ensures Cools(StepOf(s, random), s.model.ambient, keep)
  {
    forall r: Runner, step: nat
      ensures StepOf(s, random)(r, step).tank.temperature - s.model.ambient == (r.tank.temperature - s.model.ambient) * keep
    {
      LeakEffects(s, step);
      LeakStepCools(SettingOf(s, random), r.tank, EffectsOf(ActiveFaults(s.faults, step)), step);
    }
  }

  // ---------- Which scenarios run, and how they start ----------

  /** A scenario of known form, with a name and a start, of at most a hundred thousand steps of
      at most an hour, with ordered thresholds, a level that is a percentage, rates that are
      not negative, and faults of known kinds within it. */
  ghost predicate Sane(s: Scenario) {
    && s.schemaVersion == 1 && 1 <= |s.name| <= 128 && s.start != 0
    && 1 <= s.step <= 3_600_000_000_000 && 1 <= s.steps <= 100_000
    && s.model.temperatureHigh > s.model.temperatureLow && s.model.levelHigh > s.model.levelLow
    && s.model.initialLevel >= 0.0 && s.model.initialLevel <= 100.0 && s.model.sensorFreshFor >= 1
    && s.model.exchangePerHour >= 0.0 && s.model.heaterPerHour >= 0.0
    && s.model.evaporationPerHour >= 0.0 && s.model.fillPerHour > 0.0
    && |s.faults| <= 10_000
    && (forall i :: 0 <= i < |s.faults| ==>
          && 0 <= s.faults[i].at < s.steps && s.faults[i].duration >= 0
          && s.faults[i].kind in {SensorNoise, SensorDrift, SensorStale, RelayStuckOn, AckDelay, AckLoss,
                                  BrokerLoss, StorageLoss, Leak, ReturnPumpFailure}
          && !(s.faults[i].kind == SensorNoise && s.faults[i].value < 0.0))
  }

  lemma {:induction false} ValidIffSane(s: Scenario)
    ensures Valid(s) <==> Sane(s)
  {
    if Valid(s) {
      assert forall i :: 0 <= i < |s.faults| ==> ValidFault(s.faults[i], s.steps);
    }
    if Sane(s) {
      assert forall i :: 0 <= i < |s.faults| ==> ValidFault(s.faults[i], s.steps);
    }
  }

  /** A run starts with the return and circulation pumps running and nothing else: its first
      step never turns off heater, refill or dosing pump, and turns off the two pumps exactly
      on a leak. */
  lemma {:induction false} FirstStepTurnsOff(s: Scenario, random: nat -> real)
    requires Valid(s)
    ensures var off := TraceOf(s, random, After(s, random, 0), 0).transitions;
            && HeaterOff !in off && AtoOff !in off && DosingPumpOff !in off
            && (ReturnPumpOff in off <==> Faulty(s, 0, Leak)) && (CirculationPumpOff in off <==> Faulty(s, 0, Leak))
  {
    WantedExactly(s, random, Start(s), 0);
    TransitionsExactly(s, random, Start(s), 0);
  }

  /** A run starts from the given water, with nothing observed and nothing drawn. */
  lemma {:induction false} StartsAsGiven(s: Scenario, random: nat -> real)
    ensures var t := After(s, random, 0).tank;
            && t.temperature == s.model.initialTemperature && t.level == s.model.initialLevel
            && t.lastObservedAt == 0 && t.draws == 0
  {
  }
}
