/** The thermal world: a first-order recurrence over real numbers, stepped one tick at a time. */
module Worlds {
  import opened Names

  datatype SensorFault = NoFault | StuckHigh | StuckLow

  datatype LoadStep = LoadStep(tick: nat, load: real)

  datatype WorldConfig = WorldConfig(
    tickSeconds: real,
    ambientC: real,
    initialDeviceC: real,
    heatPerSecond: real,
    load: real,
    kAmbient: real,
    kFan: real,
    fanEffectiveness: real,
    sensorNoise: real,
    sensorFault: SensorFault,
    sensorFaultFromTick: nat,
    stuckHighC: real,
    stuckLowC: real,
    spikeAtTick: Option<nat>,
    spikeC: real,
    loadSchedule: seq<LoadStep>)

  /** The stochastic quantities of one tick. */
  datatype Draw = Draw(noise: real, distanceCm: real)

  /** Every world has a fan; no actuator is ever added or removed. */
  type Actuators = m: map<Actuator, Level> | Fan in m witness map[Fan := Off]

  datatype Change = Change(tick: nat, actuator: Actuator, level: Level)

  datatype World = World(
    config: WorldConfig,
    tick: nat,
    time: real,
    temp: real,
    load: real,
    actuators: Actuators,
    noise: real,
    distanceCm: real,
    changes: seq<Change>)

  function Drawn(config: WorldConfig, draw: Draw): real {
    if config.sensorNoise != 0.0 then draw.noise else 0.0
  }

  function InitialWorld(config: WorldConfig, draw: Draw): World {
    World(config, 0, 0.0, config.initialDeviceC, config.load, map[Fan := Off], Drawn(config, draw), draw.distanceCm, [])
  }

  function SetActuator(w: World, name: Actuator, level: Level): World
    requires name in w.actuators
  {
    if w.actuators[name] == level then w
    else w.(actuators := w.actuators[name := level], changes := w.changes + [Change(w.tick, name, level)])
  }

  /** The load in force after the scheduled changes due at a tick; the last one listed wins. */
  function ScheduledLoad(schedule: seq<LoadStep>, tick: nat, load: real): real {
    if schedule == [] then load
    else ScheduledLoad(schedule[1..], tick, if tick == schedule[0].tick then schedule[0].load else load)
  }

  function Spike(config: WorldConfig, tick: nat): real {
    if config.spikeAtTick == Some(tick) then config.spikeC else 0.0
  }

  /** One step of T' = T + dt * (heat - k_ambient * (T - ambient) - cooling * (T - ambient)). */
  function Recurrence(config: WorldConfig, temp: real, heat: real, cooling: real): real {
    var delta := temp - config.ambientC;
    temp + config.tickSeconds * (heat - config.kAmbient * delta - cooling * delta)
  }

  function Cooling(config: WorldConfig, fan: Level): real {
    if fan == On then config.kFan * config.fanEffectiveness else 0.0
  }

  function StepWorld(w: World, draw: Draw): World {
    var tick := w.tick + 1;
    var load := ScheduledLoad(w.config.loadSchedule, tick, w.load);
    var temp := w.temp + Spike(w.config, tick);
    w.(tick := tick,
       time := tick as real * w.config.tickSeconds,
       load := load,
       temp := Recurrence(w.config, temp, w.config.heatPerSecond * load, Cooling(w.config, w.actuators[Fan])),
       noise := Drawn(w.config, draw),
       distanceCm := draw.distanceCm)
  }

  /** What the temperature sensor claims. */
  function Reading(w: World): real {
    if w.config.sensorFault.NoFault? || w.tick < w.config.sensorFaultFromTick then w.temp + w.noise
    else if w.config.sensorFault.StuckHigh? then w.config.stuckHighC
    else w.config.stuckLowC
  }

  function MetricsOf(w: World): Metrics {
    map[TemperatureC := Reading(w), DistanceCm := w.distanceCm]
  }

  class ThermalWorld {
    const config: WorldConfig
    var tick: nat
    var time: real
    var temp: real
    var load: real
    var actuators: Actuators
    var noise: real
    var distanceCm: real
    var changes: seq<Change>

    function View(): World
      reads this
    {
      World(config, tick, time, temp, load, actuators, noise, distanceCm, changes)
    }

    constructor (config: WorldConfig, draw: Draw)
      ensures View() == InitialWorld(config, draw)
    {
      this.config := config;
      tick, time := 0, 0.0;
      temp, load := config.initialDeviceC, config.load;
      actuators := map[Fan := Off];
      noise := Drawn(config, draw);
      distanceCm := draw.distanceCm;
      changes := [];
    }

    method Set(name: Actuator, level: Level)
      requires name in actuators
      modifies this`actuators, this`changes
      ensures View() == SetActuator(old(View()), name, level)
    {
      if actuators[name] != level {
        actuators := actuators[name := level];
        changes := changes + [Change(tick, name, level)];
      }
    }

    /** Apply the load changes due at the current tick. */
    method FollowSchedule()
      modifies this`load
      ensures load == ScheduledLoad(config.loadSchedule, tick, old(load))
    {
      for i := 0 to |config.loadSchedule|
        invariant ScheduledLoad(config.loadSchedule, tick, old(load))
               == ScheduledLoad(config.loadSchedule[i..], tick, load)
      {
        assert config.loadSchedule[i..][1..] == config.loadSchedule[i + 1..];
        if tick == config.loadSchedule[i].tick {
          load := config.loadSchedule[i].load;
        }
      }
    }

    method Advance(draw: Draw)
      modifies this
      ensures View() == StepWorld(old(View()), draw)
    {
      tick := tick + 1;
      time := tick as real * config.tickSeconds;
      FollowSchedule();
      if config.spikeAtTick == Some(tick) {
        temp := temp + config.spikeC;
      }
      assert temp == old(temp) + Spike(config, tick);
      temp := Recurrence(config, temp, config.heatPerSecond * load, Cooling(config, actuators[Fan]));
      noise := Drawn(config, draw);
      distanceCm := draw.distanceCm;
    }
  }
}
