/** Arithmetic of the thermal recurrence over the reals. */
module Thermal {
  import opened Names
  import opened Arithmetic
  import opened Worlds

  /** Losses are losses, and a tick is short enough that the recurrence does not overshoot ambient. */
  predicate Gentle(cfg: WorldConfig) {
    && cfg.tickSeconds > 0.0
    && cfg.kAmbient >= 0.0
    && cfg.kFan * cfg.fanEffectiveness >= 0.0
    && cfg.tickSeconds * (cfg.kAmbient + cfg.kFan * cfg.fanEffectiveness) <= 1.0
  }

  /** No load in force now or scheduled for later heats faster than `heat` degrees per second. */
  predicate HeatWithin(cfg: WorldConfig, load: real, heat: real) {
    && cfg.heatPerSecond * load <= heat
    && forall i :: 0 <= i < |cfg.loadSchedule| ==> cfg.heatPerSecond * cfg.loadSchedule[i].load <= heat
  }

  predicate HonestSensor(cfg: WorldConfig) { cfg.sensorFault.NoFault? && cfg.spikeAtTick.None? }

  predicate Accurate(draw: Draw, epsilon: real) { -epsilon <= draw.noise <= epsilon }

  function WithoutFan(cfg: WorldConfig, heat: real, x: real): real { Recurrence(cfg, x, heat, 0.0) }

  function WithFan(cfg: WorldConfig, heat: real, x: real): real {
    Recurrence(cfg, x, heat, cfg.kFan * cfg.fanEffectiveness)
  }

  /** The fan-off recurrence applied `k` times. */
  function WithoutFanFor(cfg: WorldConfig, heat: real, x: real, k: nat): real {
    if k == 0 then x else WithoutFan(cfg, heat, WithoutFanFor(cfg, heat, x, k - 1))
  }

  lemma RecurrenceForm(cfg: WorldConfig, x: real, heat: real, cooling: real)
    ensures Recurrence(cfg, x, heat, cooling)
         == x + cfg.tickSeconds * heat - (cfg.tickSeconds * (cfg.kAmbient + cooling)) * (x - cfg.ambientC)
  {
    var d := x - cfg.ambientC;
    assert cfg.kAmbient * d + cooling * d == (cfg.kAmbient + cooling) * d;
    assert cfg.tickSeconds * (heat - (cfg.kAmbient + cooling) * d)
        == cfg.tickSeconds * heat - (cfg.tickSeconds * (cfg.kAmbient + cooling)) * d;
  }

  lemma RecurrenceMonotone(cfg: WorldConfig, x: real, y: real, h: real, k: real, cooling: real)
    requires cfg.tickSeconds > 0.0 && cfg.tickSeconds * (cfg.kAmbient + cooling) <= 1.0
    requires x <= y && h <= k
    ensures Recurrence(cfg, x, h, cooling) <= Recurrence(cfg, y, k, cooling)
  {
    RecurrenceForm(cfg, x, h, cooling);
    RecurrenceForm(cfg, y, k, cooling);
    var rate := cfg.tickSeconds * (cfg.kAmbient + cooling);
    Product(1.0 - rate, y - x);
    assert (1.0 - rate) * (y - x) == (y - x) - rate * (y - x);
    assert rate * (y - cfg.ambientC) - rate * (x - cfg.ambientC) == rate * (y - x);
    Product(cfg.tickSeconds, k - h);
    assert cfg.tickSeconds * (k - h) == cfg.tickSeconds * k - cfg.tickSeconds * h;
  }

  lemma PassiveIsGentleToo(cfg: WorldConfig)
    requires Gentle(cfg)
    ensures cfg.tickSeconds * (cfg.kAmbient + 0.0) <= 1.0
  {
    Product(cfg.tickSeconds, cfg.kFan * cfg.fanEffectiveness);
    assert cfg.tickSeconds * (cfg.kAmbient + cfg.kFan * cfg.fanEffectiveness)
        == cfg.tickSeconds * cfg.kAmbient + cfg.tickSeconds * (cfg.kFan * cfg.fanEffectiveness);
  }

  lemma WithoutFanMonotone(cfg: WorldConfig, heat: real, x: real, y: real)
    requires Gentle(cfg) && x <= y
    ensures WithoutFan(cfg, heat, x) <= WithoutFan(cfg, heat, y)
  {
    PassiveIsGentleToo(cfg);
    RecurrenceMonotone(cfg, x, y, heat, heat, 0.0);
  }

  /** A fan that can hold a temperature also brings every higher one down. */
  lemma FanHolds(cfg: WorldConfig, heat: real, z: real, x: real)
    requires Gentle(cfg) && WithFan(cfg, heat, z) <= z
    ensures WithFan(cfg, heat, x) <= Max(z, x)
  {
    var cooling := cfg.kFan * cfg.fanEffectiveness;
    if x <= z {
      RecurrenceMonotone(cfg, x, z, heat, heat, cooling);
    } else {
      RecurrenceForm(cfg, x, heat, cooling);
      RecurrenceForm(cfg, z, heat, cooling);
      var rate := cfg.tickSeconds * (cfg.kAmbient + cooling);
      Product(cfg.tickSeconds, cfg.kAmbient + cooling);
      Product(rate, x - z);
      assert rate * (x - cfg.ambientC) - rate * (z - cfg.ambientC) == rate * (x - z);
    }
  }

  /** The fan-on recurrence applied `k` times. */
  function WithFanFor(cfg: WorldConfig, heat: real, x: real, k: nat): real {
    if k == 0 then x else WithFan(cfg, heat, WithFanFor(cfg, heat, x, k - 1))
  }

  lemma WithFanMonotone(cfg: WorldConfig, heat: real, x: real, y: real)
    requires Gentle(cfg) && x <= y
    ensures WithFan(cfg, heat, x) <= WithFan(cfg, heat, y)
  {
    RecurrenceMonotone(cfg, x, y, heat, heat, cfg.kFan * cfg.fanEffectiveness);
  }

  /** From a temperature the fan brings down it keeps bringing down. */
  lemma {:induction false} FanBringsDown(cfg: WorldConfig, heat: real, x: real, j: nat, k: nat)
    requires Gentle(cfg) && WithFan(cfg, heat, x) <= x && j <= k
    ensures WithFanFor(cfg, heat, x, k) <= WithFanFor(cfg, heat, x, j)
    decreases k
  {
    if j < k {
      if j == 0 {
        FanBringsDown(cfg, heat, x, 0, k - 1);
        WithFanMonotone(cfg, heat, WithFanFor(cfg, heat, x, k - 1), x);
      } else {
        FanBringsDown(cfg, heat, x, j - 1, k - 1);
        WithFanMonotone(cfg, heat, WithFanFor(cfg, heat, x, k - 1), WithFanFor(cfg, heat, x, j - 1));
      }
    }
  }

  /** Repeated fan-off steps from `x` move one way, so the larger end bounds the way between. */
  function Ramp(cfg: WorldConfig, heat: real, x: real, k: nat): real {
    Max(x, WithoutFanFor(cfg, heat, x, k))
  }

  lemma {:induction false} IteratesMoveOneWay(cfg: WorldConfig, heat: real, x: real, k: nat)
    requires Gentle(cfg)
    ensures WithoutFan(cfg, heat, x) >= x ==>
      WithoutFanFor(cfg, heat, x, k + 1) >= WithoutFanFor(cfg, heat, x, k) && WithoutFanFor(cfg, heat, x, k) >= x
    ensures WithoutFan(cfg, heat, x) <= x ==>
      WithoutFanFor(cfg, heat, x, k + 1) <= WithoutFanFor(cfg, heat, x, k) && WithoutFanFor(cfg, heat, x, k) <= x
  {
    if k > 0 {
      IteratesMoveOneWay(cfg, heat, x, k - 1);
      var before, here := WithoutFanFor(cfg, heat, x, k - 1), WithoutFanFor(cfg, heat, x, k);
      if WithoutFan(cfg, heat, x) >= x {
        WithoutFanMonotone(cfg, heat, before, here);
      }
      if WithoutFan(cfg, heat, x) <= x {
        WithoutFanMonotone(cfg, heat, here, before);
      }
    } else {
      assert WithoutFanFor(cfg, heat, x, 1) == WithoutFan(cfg, heat, WithoutFanFor(cfg, heat, x, 0));
    }
  }

  lemma RampStep(cfg: WorldConfig, heat: real, x: real, k: nat)
    requires Gentle(cfg)
    ensures Ramp(cfg, heat, x, k) <= Ramp(cfg, heat, x, k + 1)
    ensures WithoutFan(cfg, heat, Ramp(cfg, heat, x, k)) <= Ramp(cfg, heat, x, k + 1)
  {
    IteratesMoveOneWay(cfg, heat, x, k);
    IteratesMoveOneWay(cfg, heat, x, k + 1);
  }

  lemma {:induction false} RampGrows(cfg: WorldConfig, heat: real, x: real, j: nat, k: nat)
    requires Gentle(cfg) && j <= k
    ensures Ramp(cfg, heat, x, j) <= Ramp(cfg, heat, x, k)
    decreases k - j
  {
    if j < k {
      RampStep(cfg, heat, x, j);
      RampGrows(cfg, heat, x, j + 1, k);
    }
  }

  lemma {:induction false} ScheduleWithin(cfg: WorldConfig, schedule: seq<LoadStep>, tick: nat, load: real, heat: real)
    requires cfg.heatPerSecond * load <= heat
    requires forall i :: 0 <= i < |schedule| ==> cfg.heatPerSecond * schedule[i].load <= heat
    ensures cfg.heatPerSecond * ScheduledLoad(schedule, tick, load) <= heat
    decreases |schedule|
  {
    if schedule != [] {
      ScheduleWithin(cfg, schedule[1..], tick, if tick == schedule[0].tick then schedule[0].load else load, heat);
    }
  }

  /** Recurrence at a smaller heat is below the recurrence at the bound. */
  lemma LessHeat(cfg: WorldConfig, x: real, h: real, heat: real, level: Level)
    requires Gentle(cfg) && h <= heat
    ensures level == On ==> Recurrence(cfg, x, h, Cooling(cfg, level)) <= WithFan(cfg, heat, x)
    ensures level != On ==> Recurrence(cfg, x, h, Cooling(cfg, level)) <= WithoutFan(cfg, heat, x)
  {
    PassiveIsGentleToo(cfg);
    RecurrenceMonotone(cfg, x, x, h, heat, Cooling(cfg, level));
  }

  lemma StepForm(w: World, draw: Draw)
    requires w.config.spikeAtTick.None?
    ensures var v := StepWorld(w, draw);
      v.temp == Recurrence(w.config, w.temp, w.config.heatPerSecond * v.load, Cooling(w.config, w.actuators[Fan]))
  {
  }

  lemma StepHeat(w: World, draw: Draw, heat: real)
    requires HeatWithin(w.config, w.load, heat)
    ensures var v := StepWorld(w, draw);
      w.config.heatPerSecond * v.load <= heat && HeatWithin(v.config, v.load, heat)
  {
    ScheduleWithin(w.config, w.config.loadSchedule, w.tick + 1, w.load, heat);
  }

  lemma StepIsRead(w: World, draw: Draw, epsilon: real)
    requires HonestSensor(w.config) && Accurate(draw, epsilon) && epsilon >= 0.0
    ensures var v := StepWorld(w, draw); v.temp - epsilon <= Reading(v) <= v.temp + epsilon
  {
  }

  /** One honest tick of the world: bounded by the recurrence at the heat bound, and read within ε. */
  lemma WorldStep(w: World, draw: Draw, heat: real, epsilon: real)
    requires Gentle(w.config) && HonestSensor(w.config) && HeatWithin(w.config, w.load, heat)
    requires Accurate(draw, epsilon) && epsilon >= 0.0
    ensures var v := StepWorld(w, draw);
      && HeatWithin(v.config, v.load, heat)
      && (w.actuators[Fan] == On ==> v.temp <= WithFan(w.config, heat, w.temp))
      && (w.actuators[Fan] != On ==> v.temp <= WithoutFan(w.config, heat, w.temp))
      && v.temp - epsilon <= Reading(v) <= v.temp + epsilon
  {
    StepForm(w, draw);
    StepHeat(w, draw, heat);
    StepIsRead(w, draw, epsilon);
    LessHeat(w.config, w.temp, w.config.heatPerSecond * StepWorld(w, draw).load, heat, w.actuators[Fan]);
  }
}
