/** Why the switching has to be affordable: a device that heats and cools so fast that its fan is asked
    for, and against, at every hold. The sensor is exact, the dead band is 29 degrees wide, the fan holds
    the device far below the emergency, and still a command is refused. */
module RestlessExample {
  import opened Names
  import opened Manifests
  import opened Programs
  import opened Worlds
  import opened Supervisors
  import opened RuntimeProofs
  import opened Harness
  import opened Thermal
  import opened Adaptation
  import opened BudgetProofs
  import opened NeverRescued
  import opened Runs

  const ACTIVATE := Single(Condition(TemperatureC, GE, 49.0))
  const RECOVER := Single(Condition(TemperatureC, LT, 20.0))

  /** Up by 6.2 degrees a second without the fan; with it, half way to 17.4. */
  predicate Swinging(cfg: WorldConfig) {
    && cfg.tickSeconds == 1.0 && cfg.ambientC == 5.0 && cfg.heatPerSecond == 6.2 && cfg.load == 1.0
    && cfg.kAmbient == 0.0 && cfg.kFan == 0.5 && cfg.fanEffectiveness == 1.0
    && cfg.sensorNoise == 0.0 && HonestSensor(cfg) && cfg.loadSchedule == []
    && cfg.initialDeviceC == 43.2
  }

  /** The temperature `k` ticks after the fan has been turned off, or on. */
  function After(on: bool, k: nat): real {
    if on then
      (if k == 0 then 49.4 else if k == 1 then 33.4 else if k == 2 then 25.4 else if k == 3 then 21.4
       else if k == 4 then 19.4 else 18.4)
    else 18.4 + 6.2 * k as real
  }

  /** Where the device is in its swing. */
  predicate InSwing(r: Rig) {
    var w, s := r.plant.world, SwitchOf(r.controller);
    && Swinging(w.config) && w.load == 1.0
    && (s.position == Some(On) || s.position == Some(Off))
    && (if s.lastChange.None? then s.position == Some(Off) && w.temp == 43.2
        else
          && 0 <= w.tick - s.lastChange.value < 5
          && w.temp == After(s.position == Some(On), w.tick - s.lastChange.value))
  }

  function Quietly(r: Rig): Draw { Draw(0.0, 0.0) }

  lemma SwingStep(w: World, on: bool, k: nat)
    requires Swinging(w.config) && w.load == 1.0 && w.temp == After(on, k) && k < 5
    requires on == (w.actuators[Fan] == On)
    ensures StepWorld(w, Draw(0.0, 0.0)).temp == After(on, k + 1) && StepWorld(w, Draw(0.0, 0.0)).load == 1.0
    ensures Reading(StepWorld(w, Draw(0.0, 0.0))) == After(on, k + 1)
  {
    StepForm(w, Draw(0.0, 0.0));
  }

  lemma FirstStep(w: World)
    requires Swinging(w.config) && w.load == 1.0 && w.temp == 43.2 && w.actuators[Fan] == Off
    ensures StepWorld(w, Draw(0.0, 0.0)).temp == 49.4 && StepWorld(w, Draw(0.0, 0.0)).load == 1.0
    ensures Reading(StepWorld(w, Draw(0.0, 0.0))) == 49.4
  {
    StepForm(w, Draw(0.0, 0.0));
  }

  /** The next reading, and the temperature it reads. */
  function NextReading(r: Rig): real {
    var s := SwitchOf(r.controller);
    if s.lastChange.Some? && 0 <= r.plant.world.tick - s.lastChange.value
    then After(s.position == Some(On), r.plant.world.tick - s.lastChange.value + 1) else 49.4
  }

  lemma NextIs(setup: Setup, r: Rig, p: Program)
    requires InSwing(r) && Steady(setup, r, p)
    ensures var v := StepWorld(r.plant.world, Quietly(r));
      v.temp == NextReading(r) && Reading(v) == NextReading(r) && v.load == 1.0
  {
    var w, s := r.plant.world, SwitchOf(r.controller);
    if s.lastChange.Some? {
      SwingStep(w, s.position == Some(On), w.tick - s.lastChange.value);
    } else {
      FirstStep(w);
    }
  }

  lemma SwingDemands(setup: Setup, r: Rig, p: Program)
    requires InSwing(r) && Steady(setup, r, p) && p.minHoldTicks == 5 && setup.policy == DEFAULT_POLICY
    ensures Demanding(setup, r, p, ACTIVATE, RECOVER, Quietly(r))
  {
    NextIs(setup, r, p);
  }

  lemma SwingGoesOn(setup: Setup, r: Rig, p: Program, ceiling: int, after: Rig)
    requires InSwing(r) && Steady(setup, r, p) && p.minHoldTicks == 5
    requires QuietStep(setup, r, Quietly(r), ACTIVATE, RECOVER, ceiling, after, false)
    ensures InSwing(after)
  {
    NextIs(setup, r, p);
  }

  lemma SwingIsRestless(setup: Setup, p: Program, ceiling: int)
    requires p.minHoldTicks == 5 && setup.policy == DEFAULT_POLICY
    ensures Restless(setup, p, ACTIVATE, RECOVER, ceiling, Quietly, InSwing)
  {
    forall r {:trigger InSwing(r)} | InSwing(r) && Steady(setup, r, p)
      ensures Demanding(setup, r, p, ACTIVATE, RECOVER, Quietly(r))
    {
      SwingDemands(setup, r, p);
    }
    forall r, after {:trigger QuietStep(setup, r, Quietly(r), ACTIVATE, RECOVER, ceiling, after, false)} |
      InSwing(r) && Steady(setup, r, p)
      && QuietStep(setup, r, Quietly(r), ACTIVATE, RECOVER, ceiling, after, false)
      ensures InSwing(after)
    {
      SwingGoesOn(setup, r, p, ceiling, after);
    }
  }

  lemma SwingIsCoolable(cfg: WorldConfig)
    requires Swinging(cfg)
    ensures Coolable(cfg, 6.2, 0.0, 49.0) && HeatWithin(cfg, cfg.load, 6.2) && cfg.initialDeviceC <= 49.0
    ensures Ramp(cfg, 6.2, 49.0, 5) < DEFAULT_POLICY.emergencyC
  {
    assert WithoutFanFor(cfg, 6.2, 49.0, 0) == 49.0;
    assert WithoutFanFor(cfg, 6.2, 49.0, 1) == 55.2;
    assert WithoutFanFor(cfg, 6.2, 49.0, 2) == 61.4;
    assert WithoutFanFor(cfg, 6.2, 49.0, 3) == 67.6;
    assert WithoutFanFor(cfg, 6.2, 49.0, 4) == 73.8;
  }

  /** Every reading exact, and all that the never-rescued theorem asks of physics and thresholds given;
      only the switching is not affordable. The run ends in a refused command and a false belief. */
  lemma {:induction false} ExactReadingsCanBeRefused(setup: Setup, p: Program, cfg: WorldConfig, initial: Draw)
    returns (draws: seq<Draw>)
    requires Ready(setup, p, ACTIVATE, RECOVER, 12) && p.minHoldTicks == 5
    requires p.maximumDurationSeconds >= 62 && setup.policy == DEFAULT_POLICY && Swinging(cfg)
    ensures Coolable(cfg, 6.2, 0.0, 49.0) && HeatWithin(cfg, cfg.load, 6.2) && cfg.initialDeviceC <= 49.0
    ensures Ramp(cfg, 6.2, 49.0, 5) < DEFAULT_POLICY.emergencyC
    ensures TriggeredAt(ACTIVATE, 49.0) && OnlyFrom(ACTIVATE, 49.0) && RecoversBelow(RECOVER, 20.0)
    ensures forall i :: 0 <= i < |draws| ==> Accurate(draws[i], 0.0)
    ensures var start := ScenarioStart(p, cfg, initial);
      && Throughout(Ticker(setup), Quiet(setup), start, draws)
      && !BudgetNeverRefuses(RowsOf(setup, start, draws, None))
      && !KnowsItsFan(RunLoop(setup, start, draws, None))
  {
    SwingIsCoolable(cfg);
    ThresholdsOf(ACTIVATE, RECOVER, 49.0, 20.0);
    ScenarioIsFresh(setup, p, cfg, initial);
    draws := SwingIsRefused(setup, ScenarioStart(p, cfg, initial), p);
  }

  lemma {:induction false} SwingIsRefused(setup: Setup, start: Rig, p: Program) returns (draws: seq<Draw>)
    requires Ready(setup, p, ACTIVATE, RECOVER, 12) && p.minHoldTicks == 5 && setup.policy == DEFAULT_POLICY
    requires FreshStart(setup, start, p) && InSwing(start) && LeasedUntil(start, start.plant.world.tick + 61)
    ensures forall i :: 0 <= i < |draws| ==> Accurate(draws[i], 0.0)
    ensures Throughout(Ticker(setup), Quiet(setup), start, draws)
    ensures !BudgetNeverRefuses(RowsOf(setup, start, draws, None))
    ensures !KnowsItsFan(RunLoop(setup, start, draws, None))
  {
    SwingIsRestless(setup, p, 12);
    draws := RestlessRunIsRefused(setup, start, p, ACTIVATE, RECOVER, 12, Quietly, InSwing,
                                  (d: Draw) => Accurate(d, 0.0));
  }
}
