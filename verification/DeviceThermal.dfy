/** The thermal bound of a device, whatever it runs and whatever happens to it. */
module DeviceThermal {
  import opened Names
  import opened Arithmetic
  import opened Programs
  import opened Worlds
  import opened Supervisors
  import opened SupervisorProofs
  import opened Runtime
  import opened Harness
  import opened Devices
  import opened Runs
  import opened Thermal
  import Config

  /** The policy has seen the present reading: if it calls for cooling, cooling is on and required. */
  predicate Minded(setup: Setup, p: Plant) {
    Reading(p.world) >= setup.policy.emergencyC ==> CoolingOn(p)
  }

  /** Between two moments of one tick: the physics stands still and cooling stays minded. */
  predicate Keeps(setup: Setup, p: Plant, q: Plant) {
    SamePhysics(p, q) && (Minded(setup, p) ==> Minded(setup, q))
  }

  lemma IntentsKeep(setup: Setup, p: Plant, intents: seq<Intent>, time: real)
    requires CoolsWhenHot(setup)
    ensures Keeps(setup, p, ApplyIntents(setup, p, intents, time))
  {
    IntentsCannotStopCooling(setup, p, intents, time);
  }

  lemma PolicyKeeps(setup: Setup, p: Plant, time: real)
    requires CoolsWhenHot(setup)
    ensures Keeps(setup, p, EnforceLocalPolicy(setup, p, MetricsOf(p.world), time))
    ensures Minded(setup, EnforceLocalPolicy(setup, p, MetricsOf(p.world), time))
  {
    EnforceFrame(setup, p, MetricsOf(p.world), time);
    EnforceCools(setup, p, MetricsOf(p.world), time);
  }

  lemma ControlKeeps(setup: Setup, p: Plant, c: Controller, crash: bool)
    requires CoolsWhenHot(setup)
    ensures Keeps(setup, p, ControlPhase(setup, p, c, crash).plant)
  {
    if p.sup.state.Normal? {
      var result := if crash then Fault else Step(c, Observe(p.world));
      match result
      case Fault =>
        var safe := p.(sup := EnterSafeState(p.sup));
        PolicyKeeps(setup, safe, p.world.time);
      case Stepped(e) => IntentsKeep(setup, p, e.intents, p.world.time);
    }
  }

  lemma StartKeeps(setup: Setup, d: Device, program: Program)
    ensures Keeps(setup, d.plant, Start(d, program).plant)
  {
  }

  lemma ReleaseKeeps(setup: Setup, p: Plant, time: real)
    requires setup.Valid()
    ensures Minded(setup, p) ==> Minded(setup, ManageUnowned(setup, p, MetricsOf(p.world), time))
    ensures SamePhysics(p, ManageUnowned(setup, p, MetricsOf(p.world), time))
  {
    ManageUnownedFrame(setup, p, MetricsOf(p.world), time);
  }

  lemma RevertKeeps(fx: Fixture, d: Device)
    requires CoolsWhenHot(fx.setup)
    ensures Keeps(fx.setup, d.plant, RevertLocal(fx, d).plant)
  {
    var target := d.state.Slot(d.state.lastKnownGood);
    if target.artifact.Some? {
      var left := RunFallback(fx, d);
      if d.controller.Some? {
        IntentsKeep(fx.setup, d.plant, Shutdown(d.controller.value).intents, d.plant.world.time);
      }
      var started := Start(left.(state := Reverted(left.state)), target.artifact.value);
      StartKeeps(fx.setup, left.(state := Reverted(left.state)), target.artifact.value);
      ReleaseKeeps(fx.setup, started.plant, started.plant.world.time);
    }
  }

  lemma ChargeKeeps(fx: Fixture, d: Device, wall: real)
    requires CoolsWhenHot(fx.setup)
    ensures Keeps(fx.setup, d.plant, ChargeLease(fx, d, wall).plant)
  {
    RevertKeeps(fx, d.(state := Charged(d.state, d.plant.world.config.tickSeconds)));
  }

  lemma BookkeepingKeeps(fx: Fixture, d: Device)
    requires CoolsWhenHot(fx.setup)
    ensures Keeps(fx.setup, d.plant, HandleFault(fx, d).plant)
    ensures Keeps(fx.setup, d.plant, ScoreProbation(fx, d).plant)
  {
    var counted := d.(state := d.state.(failures := d.state.failures + 1));
    RevertKeeps(fx, Save(counted.(state := counted.state.(status := Slots.Failed))));
    RevertKeeps(fx, Save(counted));
    RevertKeeps(fx, Save(d.(state := d.state.(status := Slots.Failed))));
  }

  /** A whole tick: the world steps once, and whatever the device then does, cooling stays minded. */
  lemma TickIsMinded(fx: Fixture, d: Device, draw: Draw, wall: real, crash: bool)
    requires CoolsWhenHot(fx.setup)
    ensures var after := Tick(fx, d, draw, wall, crash).plant;
      Minded(fx.setup, after) && SamePhysics(Plant(StepWorld(d.plant.world, draw), d.plant.sup), after)
  {
    var start := Plant(StepWorld(d.plant.world, draw), d.plant.sup);
    var policed := d.(plant := PolicyPhase(fx.setup, d.plant, draw));
    var charged := BeforeControl(fx, d, draw, wall);
    var stepped := Control(fx, charged, crash).0;
    PolicyKeeps(fx.setup, start, start.world.time);
    ChargeKeeps(fx, policed, wall);
    if charged.controller.Some? {
      ControlKeeps(fx.setup, charged.plant, charged.controller.value, crash);
    }
    BookkeepingKeeps(fx, stepped);
  }

  /** Never above the ceiling, and above `hold` only with the fan on. */
  predicate Bounded(p: Plant, heat: real, hold: real) {
    && HeatWithin(p.world.config, p.world.load, heat)
    && p.world.temp <= Max(hold, WithoutFan(p.world.config, heat, hold))
    && (p.world.temp > hold ==> p.world.actuators[Fan] == On)
  }

  /** The physics in which the bound holds: an honest sensor within `epsilon`, and a fan that can hold
      the emergency threshold plus that error. */
  predicate Holdable(setup: Setup, cfg: WorldConfig, heat: real, epsilon: real) {
    && Gentle(cfg) && HonestSensor(cfg) && epsilon >= 0.0
    && WithFan(cfg, heat, setup.policy.emergencyC + epsilon) <= setup.policy.emergencyC + epsilon
  }

  lemma TickIsBounded(fx: Fixture, d: Device, draw: Draw, wall: real, crash: bool, heat: real, epsilon: real)
    requires CoolsWhenHot(fx.setup) && Holdable(fx.setup, d.plant.world.config, heat, epsilon)
    requires Accurate(draw, epsilon) && Bounded(d.plant, heat, fx.setup.policy.emergencyC + epsilon)
    ensures var after := Tick(fx, d, draw, wall, crash).plant;
      after.world.config == d.plant.world.config && Bounded(after, heat, fx.setup.policy.emergencyC + epsilon)
  {
    var w, hold := d.plant.world, fx.setup.policy.emergencyC + epsilon;
    TickIsMinded(fx, d, draw, wall, crash);
    WorldStep(w, draw, heat, epsilon);
    if w.actuators[Fan] == On {
      FanHolds(w.config, heat, hold, w.temp);
    } else {
      WithoutFanMonotone(w.config, heat, w.temp, hold);
    }
  }

  ghost function AccurateTicks(epsilon: real): (Device, Happening) -> bool {
    (d: Device, h: Happening) => h.TickHappens? ==> Accurate(h.draw, epsilon)
  }

  ghost predicate Held(d: Device, heat: real, hold: real, cfg: WorldConfig) {
    Bounded(d.plant, heat, hold) && d.plant.world.config == cfg
  }

  ghost predicate KeepsHeld(step: (Device, Happening) -> Device, good: (Device, Happening) -> bool, heat: real,
                            hold: real, cfg: WorldConfig)
  {
    forall d, h {:trigger good(d, h)} :: Held(d, heat, hold, cfg) && good(d, h) ==> Held(step(d, h), heat, hold, cfg)
  }

  lemma DeviceKeepsHeld(fx: Fixture, heat: real, epsilon: real, hold: real, cfg: WorldConfig)
    requires CoolsWhenHot(fx.setup) && Holdable(fx.setup, cfg, heat, epsilon)
    requires hold == fx.setup.policy.emergencyC + epsilon
    ensures KeepsHeld(Doer(fx), AccurateTicks(epsilon), heat, hold, cfg)
  {
    forall d, h {:trigger AccurateTicks(epsilon)(d, h)} | Held(d, heat, hold, cfg) && AccurateTicks(epsilon)(d, h)
      ensures Held(Doer(fx)(d, h), heat, hold, cfg)
    {
      if h.TickHappens? {
        TickIsBounded(fx, d, h.draw, h.wall, h.crash, heat, epsilon);
      }
    }
  }

  /** Cool enough to start with. */
  predicate StartsCool(d: Device, heat: real, hold: real) {
    HeatWithin(d.plant.world.config, d.plant.world.load, heat) && d.plant.world.temp <= hold
  }

  /** Never hotter than `hold` or one fan-off step from there. */
  predicate StaysBelow(d: Device, heat: real, hold: real, cfg: WorldConfig) {
    d.plant.world.temp <= Max(hold, WithoutFan(cfg, heat, hold))
  }

  /** No run of good steps ever takes the device above the bound. */
  ghost predicate NeverHotter(step: (Device, Happening) -> Device, good: (Device, Happening) -> bool, d: Device,
                              heat: real, hold: real)
  {
    forall run :: Throughout(step, good, d, run) ==>
      StaysBelow(Iterate(step, d, run), heat, hold, d.plant.world.config)
  }

  lemma HeldForAll(step: (Device, Happening) -> Device, good: (Device, Happening) -> bool, d: Device, heat: real,
                   hold: real)
    requires KeepsHeld(step, good, heat, hold, d.plant.world.config) && StartsCool(d, heat, hold)
    ensures NeverHotter(step, good, d, heat, hold)
  {
    var cfg := d.plant.world.config;
    forall run | Throughout(step, good, d, run)
      ensures StaysBelow(Iterate(step, d, run), heat, hold, cfg)
    {
      Carry(step, (e: Device) => Held(e, heat, hold, cfg), good, (e: Device, h: Happening) => true, d, run);
    }
  }

  /** Over every run of ticks, crashes, installs, restarts and re-provisionings, with any clock, any
      package and any program: the device never gets hotter than one fan-off step above the emergency
      threshold plus the sensor error. */
  lemma ThermalBound(fx: Fixture, d: Device, heat: real, epsilon: real, hold: real)
    requires CoolsWhenHot(fx.setup) && Holdable(fx.setup, d.plant.world.config, heat, epsilon)
    requires hold == fx.setup.policy.emergencyC + epsilon && StartsCool(d, heat, hold)
    ensures NeverHotter(Doer(fx), AccurateTicks(epsilon), d, heat, hold)
  {
    DeviceKeepsHeld(fx, heat, epsilon, hold, d.plant.world.config);
    HeldForAll(Doer(fx), AccurateTicks(epsilon), d, heat, hold);
  }

  /** The default world at two degrees a second: the fan holds any temperature from 95 up, and the
      bound is 95.6 plus 0.98 of the sensor error (or the threshold plus the error, if that is more). */
  lemma ShippedBound(cfg: WorldConfig, epsilon: real)
    requires cfg.tickSeconds == 1.0 && cfg.kAmbient == 0.02 && cfg.kFan == 0.15 && cfg.fanEffectiveness == 1.0
    requires cfg.ambientC == 25.0 && cfg.sensorFault.NoFault? && cfg.spikeAtTick.None? && epsilon >= 0.0
    ensures forall setup: Setup :: setup.policy == DEFAULT_POLICY ==> Holdable(setup, cfg, 2.0, epsilon)
    ensures WithoutFan(cfg, 2.0, Config.EMERGENCY_TEMP_C + epsilon) == 95.6 + 0.98 * epsilon
  {
  }
}
