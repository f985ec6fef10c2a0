/** The simulator's runner, updated in place, against the step function of `Simulator`. */
module SimulatorRunner {
  import opened Domain
  import M = Simulator

  method ActiveFaults(faults: seq<M.Fault>, step: nat) returns (active: seq<M.Fault>)
    ensures active == M.ActiveFaults(faults, step)
  {
    active := [];
    for i := 0 to |faults|
      invariant active + M.ActiveFaults(faults[i..], step) == M.ActiveFaults(faults, step)
    {
      ghost var rest := M.ActiveFaults(faults[i + 1..], step);
      assert faults[i..][1..] == faults[i + 1..];
      if M.IsActive(faults[i], step) {
        assert active + ([faults[i]] + rest) == (active + [faults[i]]) + rest;
        active := active + [faults[i]];
      } else {
        assert [] + rest == rest;
      }
    }
  }

  method HasFault(faults: seq<M.Fault>, kind: M.FaultType) returns (found: bool)
    ensures found == M.HasFault(faults, kind)
  {
    for i := 0 to |faults|
      invariant forall j :: 0 <= j < i ==> faults[j].kind != kind
    {
      if faults[i].kind == kind {
        return true;
      }
    }
    return false;
  }

  method FaultValue(faults: seq<M.Fault>, kind: M.FaultType) returns (value: real)
    ensures value == M.FaultValue(faults, kind)
  {
    for i := 0 to |faults|
      invariant M.FaultValue(faults[i..], kind) == M.FaultValue(faults, kind)
    {
      if faults[i].kind == kind {
        return faults[i].value;
      }
      assert faults[i..][1..] == faults[i + 1..];
    }
    return 0.0;
  }

  method Effects(active: seq<M.Fault>) returns (fx: M.Effects)
    ensures fx == M.EffectsOf(active)
  {
    var noise := FaultValue(active, M.SensorNoise);
    var drift := FaultValue(active, M.SensorDrift);
    var stuck := HasFault(active, M.SensorStale);
    var relayOn := HasFault(active, M.RelayStuckOn);
    var leak := HasFault(active, M.Leak);
    var pumpFailed := HasFault(active, M.ReturnPumpFailure);
    fx := M.Effects(noise, drift, stuck, relayOn, leak, pumpFailed);
  }

  class ModelRunner {
    const scenario: M.Scenario
    const random: nat -> real
    var temperature: real
    var level: real
    var desired: M.Equipment
    var reported: M.Equipment
    var lastObserved: real
    var lastObservedAt: Time
    var draws: nat
    var broker: bool
    var storage: bool

    function Tank(): M.Tank
      reads this
    {
      M.Tank(temperature, level, desired, reported, lastObserved, lastObservedAt, draws)
    }

    function Abs(): M.Runner
      reads this
    {
      M.Runner(Tank(), broker, storage)
    }

    constructor (s: M.Scenario, random: nat -> real)
      ensures scenario == s && this.random == random && Abs() == M.Start(s)
    {
      scenario, this.random := s, random;
      temperature, level := s.model.initialTemperature, s.model.initialLevel;
      desired, reported := M.AT_START, M.AT_START;
      lastObserved, lastObservedAt, draws := 0.0, 0, 0;
      broker, storage := true, true;
    }

    /** Read the probe: draw noise, hold the last reading while stuck, else note the new one. */
    method Observe(fx: M.Effects, now: Time) returns (observed: real, quality: Quality)
      modifies this`lastObserved, this`lastObservedAt, this`draws
      ensures M.Sensed(observed, quality, draws)
           == M.Sense(scenario.model, random, old(Tank()), fx, now, M.Hours(now - scenario.start))
      ensures lastObserved == (if fx.stuck then old(lastObserved) else observed)
      ensures lastObservedAt == (if fx.stuck then old(lastObservedAt) else now)
    {
      quality := Good;
      observed := temperature + fx.drift * M.Hours(now - scenario.start);
      if fx.noise != 0.0 {
        observed := observed + random(draws) * fx.noise;
        draws := draws + 1;
        quality := Suspect;
      }
      if fx.stuck {
        observed := lastObserved;
        if lastObservedAt == 0 || now >= lastObservedAt + scenario.model.sensorFreshFor {
          quality := Stale;
        }
      } else {
        lastObserved, lastObservedAt := observed, now;
      }
    }

    /** Decide on heater, refill and pumps, and list what the readings alarm about. */
    method Decide(observed: real, quality: Quality, leak: bool) returns (alarms: set<M.Alarm>)
      modifies this`desired
      ensures desired == M.Decide(scenario.model, old(desired), level, observed, quality, leak)
      ensures alarms == M.ReadingAlarms(scenario.model, observed, quality, leak)
    {
      alarms := {};
      desired := desired.(returnPump := true, circulationPump := true, dosingPump := false);
      if quality == Stale {
        desired := desired.(heater := false);
        alarms := alarms + {M.SensorStaleAlarm};
      } else if observed <= scenario.model.temperatureLow {
        desired := desired.(heater := true);
      } else if observed >= scenario.model.temperatureHigh {
        desired := desired.(heater := false);
        alarms := alarms + {M.HighTemperature};
      }
      if level <= scenario.model.levelLow {
        desired := desired.(ato := true);
      } else if level >= scenario.model.levelHigh {
        desired := desired.(ato := false);
      }
      if leak {
        desired := M.ALL_OFF;
        alarms := alarms + {M.LeakAlarm};
      }
    }

    method AdvancePhysics()
      modifies this`temperature, this`level
      ensures Tank() == M.AdvancePhysics(scenario.model, M.Hours(scenario.step), old(Tank()))
    {
      var m, hours := scenario.model, M.Hours(scenario.step);
      temperature := temperature + (m.ambient - temperature) * (m.exchangePerHour * hours);
      if reported.heater {
        temperature := temperature + m.heaterPerHour * hours;
      }
      level := level - m.evaporationPerHour * hours;
      if reported.ato {
        level := level + m.fillPerHour * hours;
      }
      level := M.Clamp(level);
    }

    /** What the hardware makes of the decision. */
    method Obey(fx: M.Effects) returns (alarms: set<M.Alarm>)
      modifies this`reported
      ensures reported == M.Obey(desired, fx)
      ensures alarms == M.HardwareAlarms(desired.heater, fx)
    {
      alarms := {};
      if fx.pumpFailed {
        alarms := {M.ReturnPumpAlarm};
      }
      reported := desired;
      if fx.relayOn {
        reported := reported.(heater := true);
        if !desired.heater {
          alarms := alarms + {M.RelayStuckAlarm};
        }
      }
      if fx.pumpFailed {
        reported := reported.(returnPump := false);
      }
    }

    /** What the integrations see of it. */
    method Publish(active: seq<M.Fault>) returns (acknowledgement: M.Acknowledgement, alarms: set<M.Alarm>)
      modifies this`broker, this`storage
      ensures acknowledgement == M.Acknowledged(active) && alarms == M.AcknowledgementAlarms(acknowledgement)
      ensures broker == !M.HasFault(active, M.BrokerLoss) && storage == !M.HasFault(active, M.StorageLoss)
    {
      acknowledgement, alarms := M.InTime, {};
      var lost := HasFault(active, M.AckLoss);
      if lost {
        acknowledgement, alarms := M.Lost, {M.AcknowledgementLost};
      } else {
        var delayed := HasFault(active, M.AckDelay);
        if delayed {
          acknowledgement, alarms := M.Delayed, {M.AcknowledgementDelayed};
        }
      }
      var noBroker := HasFault(active, M.BrokerLoss);
      var noStorage := HasFault(active, M.StorageLoss);
      broker, storage := !noBroker, !noStorage;
    }

    /** The step of the tank, traced as if all integrations were there. */
    method TickTank(fx: M.Effects, step: nat) returns (trace: M.Trace)
      modifies this`temperature, this`level, this`desired, this`reported, this`lastObserved, this`lastObservedAt, this`draws
      ensures Tank() == M.TankAt(M.SettingOf(scenario, random), old(Tank()), fx, step)
      ensures trace == M.TankTraceOf(M.SettingOf(scenario, random), old(Tank()), fx, step, Tank())
    {
      var now := M.TimeOf(scenario.start, scenario.step, step);
      var before := desired;
      var observed, quality := Observe(fx, now);
      var raised := Decide(observed, quality, fx.leak);
      var faulty := Obey(fx);
      assert Tank() == M.ActAt(M.SettingOf(scenario, random), old(Tank()), fx, step);
      AdvancePhysics();
      trace := M.Trace(
        step, now, temperature, observed, quality, level, fx.leak, desired, reported, M.InTime, true, true,
        raised + faulty, M.SafeTransitions(before, desired));
    }

    method Tick(step: nat) returns (trace: M.Trace)
      modifies this
      ensures Abs() == M.Tick(scenario, random, old(Abs()), step)
      ensures trace == M.TraceOf(scenario, random, old(Abs()), step)
    {
      var active := ActiveFaults(scenario.faults, step);
      var fx := Effects(active);
      trace := TickTank(fx, step);
      var acknowledgement, alarms := Publish(active);
      trace := trace.(acknowledgement := acknowledgement, broker := broker, storage := storage,
                      alarms := trace.alarms + alarms);
    }

    method Extend(traces: seq<M.Trace>) returns (longer: seq<M.Trace>)
      requires M.Reached(scenario, random, traces, Abs())
      modifies this
      ensures |longer| == |traces| + 1 && M.Reached(scenario, random, longer, Abs())
    {
      ghost var before := Abs();
      var trace := Tick(|traces|);
      longer := traces + [trace];
      M.ReachedNext(scenario, random, traces, before);
    }
  }

  /** A whole run: refused when invalid, else one trace a step, each of the state the steps
      before it lead to. */
  method Run(s: M.Scenario, random: nat -> real) returns (result: Option<seq<M.Trace>>)
    ensures result.Some? <==> M.Valid(s)
    ensures result.Some? ==> |result.value| == s.steps && M.Shows(s, random, result.value)
  {
    if !M.Valid(s) {
      return None;
    }
    var runner := new ModelRunner(s, random);
    var traces: seq<M.Trace> := [];
    for step := 0 to s.steps
      invariant runner.scenario == s && runner.random == random
      invariant |traces| == step && M.Reached(s, random, traces, runner.Abs())
    {
      traces := runner.Extend(traces);
    }
    return Some(traces);
  }
}
