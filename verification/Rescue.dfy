/** Adaptation is never rescued: a compiled cooling program keeps its device below the emergency
    threshold by itself, so the supervisor's emergency policy never has to step in. */
module NeverRescued {
  import opened Names
  import opened Manifests
  import opened Registries
  import opened Programs
  import opened Worlds
  import opened Supervisors
  import opened Runtime
  import opened RuntimeProofs
  import opened Harness
  import opened Adaptation
  import opened BudgetProofs
  import opened Runs
  import opened Thermal
  import CompilerProofs

  /** The activation condition holds on every reading from `threshold` up. */
  ghost predicate TriggeredAt(activation: Trigger, threshold: real) {
    forall metrics: Metrics :: TemperatureC in metrics && metrics[TemperatureC] >= threshold ==>
      activation.Evaluate(metrics)
  }

  /** The physics the guarantee rests on: a fan that can hold `level`, readings within `epsilon`. */
  predicate Coolable(cfg: WorldConfig, heat: real, epsilon: real, level: real) {
    && Gentle(cfg) && HonestSensor(cfg) && epsilon >= 0.0
    && WithFan(cfg, heat, level) <= level
  }

  /** How many ticks the fan has been off while the hold still kept it off. */
  function HeldOff(last: Option<int>, tick: int, hold: int): nat {
    if last.Some? && 0 <= tick - last.value < hold then tick - last.value else 0
  }

  /** The thermal part of the invariant: with the fan on, at most `hold` fan-off steps above the
      level; with the fan off, at most as many as the hold has kept it off for. */
  predicate Contained(rig: Rig, heat: real, level: real, hold: int)
    requires hold >= 1
  {
    var w := rig.plant.world;
    if w.actuators[Fan] == On then w.temp <= Ramp(w.config, heat, level, hold)
    else w.temp <= Ramp(w.config, heat, level, HeldOff(SwitchOf(rig.controller).lastChange, w.tick, hold))
  }

  /** The world's step under that invariant, before the controller reacts. */
  lemma WarmUp(rig: Rig, draw: Draw, heat: real, epsilon: real, level: real, hold: int)
    requires hold >= 1 && Contained(rig, heat, level, hold)
    requires Coolable(rig.plant.world.config, heat, epsilon, level)
    requires HeatWithin(rig.plant.world.config, rig.plant.world.load, heat) && Accurate(draw, epsilon)
    ensures var w, v := rig.plant.world, StepWorld(rig.plant.world, draw);
      && HeatWithin(v.config, v.load, heat)
      && v.temp - epsilon <= Reading(v) <= v.temp + epsilon
      && v.temp <= Ramp(w.config, heat, level, hold)
      && (w.actuators[Fan] != On ==>
            v.temp <= Ramp(w.config, heat, level, HeldOff(SwitchOf(rig.controller).lastChange, w.tick, hold) + 1))
  {
    var w := rig.plant.world;
    WorldStep(w, draw, heat, epsilon);
    if w.actuators[Fan] == On {
      FanHolds(w.config, heat, level, w.temp);
    } else {
      var k := HeldOff(SwitchOf(rig.controller).lastChange, w.tick, hold);
      WithoutFanMonotone(w.config, heat, w.temp, Ramp(w.config, heat, level, k));
      RampStep(w.config, heat, level, k);
      RampGrows(w.config, heat, level, k + 1, hold);
    }
  }

  /** What the switch knows on a reading: from the threshold up it wants the fan on, and whatever turns
      the fan off was read below it. */
  lemma FlipByReading(s: Switch, activation: Trigger, recovery: Trigger, hold: int, o: Observation, threshold: real)
    requires TriggeredAt(activation, threshold) && Disjoint(activation, recovery)
    requires TemperatureC in o.metrics && s.position.Some?
    ensures var (next, told) := Flip(s, activation, recovery, hold, o);
      && (told.None? ==> next == s)
      && (told.Some? ==> next == Switch(told, Some(o.tick)))
      && (told.Some? && told != Some(On) ==> o.metrics[TemperatureC] < threshold)
      && (told.None? && s.position != Some(On) && o.metrics[TemperatureC] >= threshold ==>
            s.lastChange.Some? && o.tick - s.lastChange.value < hold)
  {
  }

  /** The invariant over one undisturbed tick with room in the budget. */
  lemma StaysContained(setup: Setup, rig: Rig, p: Program, draw: Draw, activation: Trigger, recovery: Trigger,
                       ceiling: int, after: Rig, heat: real, epsilon: real, threshold: real, level: real)
    requires Steady(setup, rig, p) && p.minHoldTicks >= 1 && Disjoint(activation, recovery)
    requires QuietStep(setup, rig, draw, activation, recovery, ceiling, after, false)
    requires TriggeredAt(activation, threshold) && threshold + epsilon <= level
    requires Contained(rig, heat, level, p.minHoldTicks)
    requires Coolable(rig.plant.world.config, heat, epsilon, level)
    requires HeatWithin(rig.plant.world.config, rig.plant.world.load, heat) && Accurate(draw, epsilon)
    ensures Contained(after, heat, level, p.minHoldTicks)
  {
    var w, v := rig.plant.world, StepWorld(rig.plant.world, draw);
    var s := SwitchOf(rig.controller);
    WarmUp(rig, draw, heat, epsilon, level, p.minHoldTicks);
    FlipByReading(s, activation, recovery, p.minHoldTicks, Observe(v), threshold);
    var k := HeldOff(SwitchOf(after.controller).lastChange, v.tick, p.minHoldTicks);
    RampGrows(w.config, heat, level, 0, k);
    LevelIsRampZero(w.config, heat, level);
  }

  lemma LevelIsRampZero(cfg: WorldConfig, heat: real, level: real)
    ensures Ramp(cfg, heat, level, 0) == level
  {
  }

  // ----- The rest between two demands -----

  /** The hypotheses of the guarantee, gathered. Activation holds on every reading from `threshold` up
      and on none below `lowest`; the device is at most `cold` when its fan is turned off, and then
      takes `rest` ticks to be read at `lowest` again. `byFan` says why it is that cold. */
  datatype Bounds = Bounds(heat: real, epsilon: real, threshold: real, level: real,
                           lowest: real, cold: real, byFan: bool, rest: nat)

  ghost predicate OnlyFrom(activation: Trigger, lowest: real) {
    forall metrics: Metrics :: TemperatureC in metrics && activation.Evaluate(metrics) ==>
      metrics[TemperatureC] >= lowest
  }

  ghost predicate RecoversBelow(recovery: Trigger, reading: real) {
    forall metrics: Metrics :: TemperatureC in metrics && recovery.Evaluate(metrics) ==>
      metrics[TemperatureC] < reading
  }

  /** The hottest the device gets. */
  function Top(cfg: WorldConfig, b: Bounds, hold: nat): real { Ramp(cfg, b.heat, b.level, hold) }

  /** The device is cold when its fan goes off, either because recovery was read below a dead band or
      because the fan has run for a hold; and from there it takes `rest` ticks to be hot again. Without
      such a claim `rest` is zero. */
  ghost predicate Dwells(cfg: WorldConfig, activation: Trigger, recovery: Trigger, hold: nat, b: Bounds) {
    b.rest > 0 ==>
      && OnlyFrom(activation, b.lowest)
      && (if b.byFan then WithFanFor(cfg, b.heat, Top(cfg, b, hold), hold) <= b.cold
          else RecoversBelow(recovery, b.cold - b.epsilon))
      && Ramp(cfg, b.heat, b.cold, b.rest - 1) + b.epsilon < b.lowest
  }

  function Since(rig: Rig): nat {
    var last := SwitchOf(rig.controller).lastChange;
    if last.Some? && last.value <= rig.plant.world.tick then rig.plant.world.tick - last.value else 0
  }

  /** Since its fan was turned off the device has warmed by no more than the fan-off steps from `cold`. */
  predicate Dwelling(rig: Rig, b: Bounds) {
    b.rest > 0 && SwitchOf(rig.controller).lastChange.Some? && rig.plant.world.actuators[Fan] != On ==>
      rig.plant.world.temp <= Ramp(rig.plant.world.config, b.heat, b.cold, Since(rig))
  }

  /** Since its fan was turned on the device has cooled at least by the fan-on steps from the top. */
  predicate CoolingDown(rig: Rig, b: Bounds, hold: nat) {
    var w, s := rig.plant.world, SwitchOf(rig.controller);
    b.byFan ==>
      && (s.lastChange.None? ==> s.position == Some(Off))
      && (w.actuators[Fan] == On ==> w.temp <= WithFanFor(w.config, b.heat, Top(w.config, b, hold), Since(rig)))
  }

  lemma TopIsBroughtDown(cfg: WorldConfig, b: Bounds, hold: nat)
    requires Coolable(cfg, b.heat, b.epsilon, b.level)
    ensures WithFan(cfg, b.heat, Top(cfg, b, hold)) <= Top(cfg, b, hold)
  {
    FanHolds(cfg, b.heat, b.level, Top(cfg, b, hold));
  }

  /** The world's step under both, before the controller reacts. */
  lemma Drifts(rig: Rig, draw: Draw, b: Bounds, hold: nat)
    requires Dwelling(rig, b) && CoolingDown(rig, b, hold)
    requires Coolable(rig.plant.world.config, b.heat, b.epsilon, b.level)
    requires HeatWithin(rig.plant.world.config, rig.plant.world.load, b.heat) && Accurate(draw, b.epsilon)
    ensures var w, v, cfg := rig.plant.world, StepWorld(rig.plant.world, draw), rig.plant.world.config;
      && (b.rest > 0 && SwitchOf(rig.controller).lastChange.Some? && w.actuators[Fan] != On ==>
            v.temp <= Ramp(cfg, b.heat, b.cold, Since(rig) + 1))
      && (b.byFan && w.actuators[Fan] == On ==>
            v.temp <= WithFanFor(cfg, b.heat, Top(cfg, b, hold), Since(rig) + 1))
  {
    var w, cfg := rig.plant.world, rig.plant.world.config;
    WorldStep(w, draw, b.heat, b.epsilon);
    if w.actuators[Fan] == On {
      if b.byFan {
        WithFanMonotone(cfg, b.heat, w.temp, WithFanFor(cfg, b.heat, Top(cfg, b, hold), Since(rig)));
      }
    } else if b.rest > 0 && SwitchOf(rig.controller).lastChange.Some? {
      WithoutFanMonotone(cfg, b.heat, w.temp, Ramp(cfg, b.heat, b.cold, Since(rig)));
      RampStep(cfg, b.heat, b.cold, Since(rig));
    }
  }

  /** The dwell time: having been turned off, the fan is not asked for again for `rest` ticks. */
  lemma AsksNoSooner(setup: Setup, rig: Rig, p: Program, draw: Draw, activation: Trigger, recovery: Trigger, b: Bounds,
                     hold: nat)
    requires Steady(setup, rig, p) && Dwelling(rig, b) && CoolingDown(rig, b, hold)
    requires Dwells(rig.plant.world.config, activation, recovery, hold, b)
    requires Coolable(rig.plant.world.config, b.heat, b.epsilon, b.level)
    requires HeatWithin(rig.plant.world.config, rig.plant.world.load, b.heat) && Accurate(draw, b.epsilon)
    ensures Rested(rig, draw, activation, recovery, b.rest)
  {
    var v, cfg := StepWorld(rig.plant.world, draw), rig.plant.world.config;
    Drifts(rig, draw, b, hold);
    WorldStep(rig.plant.world, draw, b.heat, b.epsilon);
    if Since(rig) + 1 < b.rest {
      RampGrows(cfg, b.heat, b.cold, Since(rig) + 1, b.rest - 1);
    }
  }

  /** When the fan is turned off the device is cold. */
  lemma ColdWhenOff(setup: Setup, rig: Rig, p: Program, draw: Draw, activation: Trigger, recovery: Trigger, b: Bounds)
    requires Steady(setup, rig, p) && p.minHoldTicks >= 1 && b.rest > 0
    requires Dwelling(rig, b) && CoolingDown(rig, b, p.minHoldTicks)
    requires Dwells(rig.plant.world.config, activation, recovery, p.minHoldTicks, b)
    requires SwitchOf(rig.controller).lastChange.None? || SwitchOf(rig.controller).position == Some(On)
          || SwitchOf(rig.controller).position == Some(Off)
    requires Coolable(rig.plant.world.config, b.heat, b.epsilon, b.level)
    requires HeatWithin(rig.plant.world.config, rig.plant.world.load, b.heat) && Accurate(draw, b.epsilon)
    requires Told(rig, activation, recovery, draw).1 == Some(Off)
    ensures StepWorld(rig.plant.world, draw).temp <= b.cold
  {
    var v, cfg := StepWorld(rig.plant.world, draw), rig.plant.world.config;
    Drifts(rig, draw, b, p.minHoldTicks);
    WorldStep(rig.plant.world, draw, b.heat, b.epsilon);
    if b.byFan {
      TopIsBroughtDown(cfg, b, p.minHoldTicks);
      FanBringsDown(cfg, b.heat, Top(cfg, b, p.minHoldTicks), p.minHoldTicks, Since(rig) + 1);
    }
  }

  lemma StaysDwelling(setup: Setup, rig: Rig, p: Program, draw: Draw, activation: Trigger, recovery: Trigger,
                      ceiling: int, after: Rig, b: Bounds)
    requires Steady(setup, rig, p) && p.minHoldTicks >= 1
    requires SwitchOf(rig.controller).lastChange.None? || SwitchOf(rig.controller).position == Some(On)
          || SwitchOf(rig.controller).position == Some(Off)
    requires QuietStep(setup, rig, draw, activation, recovery, ceiling, after, false)
    requires Dwelling(rig, b) && CoolingDown(rig, b, p.minHoldTicks)
    requires Dwells(rig.plant.world.config, activation, recovery, p.minHoldTicks, b)
    requires Coolable(rig.plant.world.config, b.heat, b.epsilon, b.level)
    requires HeatWithin(rig.plant.world.config, rig.plant.world.load, b.heat) && Accurate(draw, b.epsilon)
    requires StepWorld(rig.plant.world, draw).temp <= Top(rig.plant.world.config, b, p.minHoldTicks)
    ensures Dwelling(after, b) && CoolingDown(after, b, p.minHoldTicks)
  {
    Drifts(rig, draw, b, p.minHoldTicks);
    var told := Told(rig, activation, recovery, draw).1;
    LevelIsRampZero(rig.plant.world.config, b.heat, b.cold);
    if told == Some(Off) && b.rest > 0 {
      ColdWhenOff(setup, rig, p, draw, activation, recovery, b);
    }
  }

  // ----- Runs -----

  ghost predicate Supported(setup: Setup, rig: Rig, p: Program, activation: Trigger, recovery: Trigger, ceiling: int,
                            b: Bounds)
  {
    var cfg := rig.plant.world.config;
    && Ready(setup, p, activation, recovery, ceiling) && rig.controller.program == p
    && RoomyFor(setup, rig, ceiling, b.rest) && p.minHoldTicks >= 1
    && Dwells(cfg, activation, recovery, p.minHoldTicks, b)
    && TriggeredAt(activation, b.threshold) && b.threshold + b.epsilon <= b.level
    && Coolable(cfg, b.heat, b.epsilon, b.level)
    && Top(cfg, b, p.minHoldTicks) + b.epsilon < setup.policy.emergencyC
  }

  /** Undisturbed, contained, and never yet rescued beyond `rescues` times. */
  ghost predicate Unaided(setup: Setup, rig: Rig, p: Program, cutoff: real, b: Bounds, rescues: nat) {
    && Faithful(setup, rig, p, cutoff, b.rest) && p.minHoldTicks >= 1
    && Contained(rig, b.heat, b.level, p.minHoldTicks)
    && Dwelling(rig, b) && CoolingDown(rig, b, p.minHoldTicks)
    && HeatWithin(rig.plant.world.config, rig.plant.world.load, b.heat)
    && rig.plant.sup.emergencyActivations == rescues
  }

  /** An accurate reading inside the lease. */
  ghost function Benign(epsilon: real): (Rig, Draw) -> bool {
    (rig: Rig, draw: Draw) =>
      Accurate(draw, epsilon) && rig.controller.startedAt.Some?
      && !Elapsed(rig.controller, StepWorld(rig.plant.world, draw).time)
  }

  /** What the row of such a tick shows. */
  predicate Untroubled(row: Row, bound: real) {
    row.temp <= bound && row.state.Normal? && !row.emergency && RejectedTransitionBudget !in row.verdicts
  }

  lemma BenignIsQuiet(setup: Setup, rig: Rig, p: Program, activation: Trigger, recovery: Trigger, ceiling: int,
                      cutoff: real, b: Bounds, rescues: nat, draw: Draw)
    requires Supported(setup, rig, p, activation, recovery, ceiling, b)
    requires Unaided(setup, rig, p, cutoff, b, rescues) && Benign(b.epsilon)(rig, draw)
    ensures QuietAhead(setup, rig, draw)
    ensures StepWorld(rig.plant.world, draw).temp <= Ramp(rig.plant.world.config, b.heat, b.level, p.minHoldTicks)
    ensures HeatWithin(rig.plant.world.config, StepWorld(rig.plant.world, draw).load, b.heat)
  {
    WarmUp(rig, draw, b.heat, b.epsilon, b.level, p.minHoldTicks);
  }

  lemma UnaidedNext(setup: Setup, rig: Rig, p: Program, activation: Trigger, recovery: Trigger, ceiling: int,
                    cutoff: real, b: Bounds, rescues: nat, draw: Draw, after: Rig, refused: bool)
    requires Supported(setup, rig, p, activation, recovery, ceiling, b)
    requires Unaided(setup, rig, p, cutoff, b, rescues) && Benign(b.epsilon)(rig, draw)
    requires QuietStep(setup, rig, draw, activation, recovery, ceiling, after, refused)
    ensures !refused && Unaided(setup, after, p, cutoff, b, rescues)
    ensures after.plant.world.config == rig.plant.world.config && after.plant.world.tick == rig.plant.world.tick + 1
    ensures after.plant.world.temp <= Ramp(rig.plant.world.config, b.heat, b.level, p.minHoldTicks)
    ensures after.controller.startedAt == rig.controller.startedAt && after.controller.program == p
  {
    BenignIsQuiet(setup, rig, p, activation, recovery, ceiling, cutoff, b, rescues, draw);
    AsksNoSooner(setup, rig, p, draw, activation, recovery, b, p.minHoldTicks);
    FaithfulNext(setup, rig, draw, p, activation, recovery, ceiling, cutoff, b.rest, after, refused);
    StaysContained(setup, rig, p, draw, activation, recovery, ceiling, after, b.heat, b.epsilon, b.threshold, b.level);
    StaysDwelling(setup, rig, p, draw, activation, recovery, ceiling, after, b);
  }

  lemma UnaidedTick(setup: Setup, rig: Rig, p: Program, activation: Trigger, recovery: Trigger, ceiling: int,
                    cutoff: real, b: Bounds, rescues: nat, draw: Draw)
    requires Supported(setup, rig, p, activation, recovery, ceiling, b)
    requires Unaided(setup, rig, p, cutoff, b, rescues) && Benign(b.epsilon)(rig, draw)
    ensures var after := LoopTick(setup, rig, draw, false);
      && Unaided(setup, after, p, cutoff, b, rescues) && !RefusedForBudget(setup, rig, draw)
      && after.plant.world.config == rig.plant.world.config
      && after.plant.world.tick == rig.plant.world.tick + 1
      && after.plant.world.temp <= Ramp(rig.plant.world.config, b.heat, b.level, p.minHoldTicks)
      && after.controller.startedAt == rig.controller.startedAt && after.controller.program == p
  {
    BenignIsQuiet(setup, rig, p, activation, recovery, ceiling, cutoff, b, rescues, draw);
    QuietTick(setup, rig, p, activation, recovery, ceiling, draw);
    UnaidedNext(setup, rig, p, activation, recovery, ceiling, cutoff, b, rescues, draw,
                LoopTick(setup, rig, draw, false), RefusedForBudget(setup, rig, draw));
  }

  ghost function TroubleFree(setup: Setup, bound: real): (Rig, Draw) -> bool
    requires setup.Valid()
  {
    (rig: Rig, draw: Draw) => Untroubled(RowOf(LoopPhase(setup, rig, draw, false)), bound)
  }

  /** Leased until tick `end`, and no tick later than that. */
  predicate LeasedTicks(rig: Rig, end: int) {
    rig.controller.startedAt.Some? && LeasedUntil(rig, end)
  }

  lemma LeasedIsBenign(rig: Rig, draw: Draw, epsilon: real, end: int)
    requires LeasedTicks(rig, end) && rig.plant.world.tick < end && rig.plant.world.config.tickSeconds > 0.0
    requires Accurate(draw, epsilon)
    ensures Benign(epsilon)(rig, draw)
  {
    InsideLease(rig, rig.plant.world.tick + 1, end);
  }

  ghost predicate Going(setup: Setup, rig: Rig, p: Program, activation: Trigger, recovery: Trigger, ceiling: int,
                        cutoff: real, b: Bounds, rescues: nat, end: int, cfg: WorldConfig)
  {
    && Supported(setup, rig, p, activation, recovery, ceiling, b)
    && Unaided(setup, rig, p, cutoff, b, rescues)
    && LeasedTicks(rig, end) && rig.plant.world.config == cfg
  }

  lemma KeepsGoing(setup: Setup, rig: Rig, p: Program, activation: Trigger, recovery: Trigger, ceiling: int,
                   cutoff: real, b: Bounds, rescues: nat, end: int, cfg: WorldConfig, draw: Draw)
    requires Going(setup, rig, p, activation, recovery, ceiling, cutoff, b, rescues, end, cfg)
    requires rig.plant.world.tick < end && Accurate(draw, b.epsilon)
    ensures var after := Ticker(setup)(rig, draw);
      && Going(setup, after, p, activation, recovery, ceiling, cutoff, b, rescues, end, cfg)
      && after.plant.world.tick == rig.plant.world.tick + 1
    ensures TroubleFree(setup, Ramp(cfg, b.heat, b.level, p.minHoldTicks))(rig, draw)
  {
    LeasedIsBenign(rig, draw, b.epsilon, end);
    UnaidedTick(setup, rig, p, activation, recovery, ceiling, cutoff, b, rescues, draw);
    StillGoing(setup, rig, LoopTick(setup, rig, draw, false), p, activation, recovery, ceiling, cutoff, b, rescues,
               end, cfg);
    RowIsUntroubled(LoopPhase(setup, rig, draw, false), LoopTick(setup, rig, draw, false),
                    Ramp(cfg, b.heat, b.level, p.minHoldTicks));
  }

  lemma RowIsUntroubled(phase: Phase, after: Rig, bound: real)
    requires after == Rig(phase.plant, phase.controller)
    requires after.plant.world.temp <= bound && after.plant.sup.state.Normal? && !after.plant.sup.emergency
    requires RejectedTransitionBudget !in phase.verdicts
    ensures Untroubled(RowOf(phase), bound)
  {
  }

  lemma StillGoing(setup: Setup, rig: Rig, after: Rig, p: Program, activation: Trigger, recovery: Trigger,
                   ceiling: int, cutoff: real, b: Bounds, rescues: nat, end: int, cfg: WorldConfig)
    requires Going(setup, rig, p, activation, recovery, ceiling, cutoff, b, rescues, end, cfg)
    requires Unaided(setup, after, p, cutoff, b, rescues)
    requires after.plant.world.config == rig.plant.world.config && after.controller.program == p
    requires after.controller.startedAt == rig.controller.startedAt
    ensures Going(setup, after, p, activation, recovery, ceiling, cutoff, b, rescues, end, cfg)
  {
    SameSupport(setup, rig, after, p, activation, recovery, ceiling, b);
    SameLease(rig, after, end);
  }

  lemma SameLease(rig: Rig, after: Rig, end: int)
    requires LeasedTicks(rig, end) && after.controller.startedAt == rig.controller.startedAt
    requires after.plant.world.config == rig.plant.world.config && after.controller.program == rig.controller.program
    ensures LeasedTicks(after, end)
  {
  }

  lemma SameSupport(setup: Setup, rig: Rig, after: Rig, p: Program, activation: Trigger, recovery: Trigger,
                    ceiling: int, b: Bounds)
    requires Supported(setup, rig, p, activation, recovery, ceiling, b)
    requires after.plant.world.config == rig.plant.world.config && after.controller.program == p
    ensures Supported(setup, after, p, activation, recovery, ceiling, b)
  {
    SameGaps(rig, after, b.rest);
  }

  lemma {:induction false} UnaidedRun(setup: Setup, rig: Rig, p: Program, activation: Trigger, recovery: Trigger,
                                      ceiling: int, cutoff: real, b: Bounds, rescues: nat, draws: seq<Draw>, end: int,
                                      bound: real)
    requires Supported(setup, rig, p, activation, recovery, ceiling, b)
    requires Unaided(setup, rig, p, cutoff, b, rescues)
    requires bound == Ramp(rig.plant.world.config, b.heat, b.level, p.minHoldTicks)
    requires LeasedTicks(rig, end) && rig.plant.world.tick + |draws| <= end
    requires forall i :: 0 <= i < |draws| ==> Accurate(draws[i], b.epsilon)
    ensures Unaided(setup, Iterate(Ticker(setup), rig, draws), p, cutoff, b, rescues)
    ensures Throughout(Ticker(setup), TroubleFree(setup, bound), rig, draws)
  {
    var step, cfg := Ticker(setup), rig.plant.world.config;
    var holds := (r: Rig) => Going(setup, r, p, activation, recovery, ceiling, cutoff, b, rescues, end, cfg);
    var ok := (d: Draw) => Accurate(d, b.epsilon);
    var count := (r: Rig) => r.plant.world.tick;
    forall r, d | holds(r) && ok(d) && count(r) < end
      ensures holds(step(r, d)) && count(step(r, d)) == count(r) + 1 && TroubleFree(setup, bound)(r, d)
    {
      KeepsGoing(setup, r, p, activation, recovery, ceiling, cutoff, b, rescues, end, cfg, d);
    }
    CarryUntil(step, holds, ok, count, TroubleFree(setup, bound), rig, draws, end);
  }

  /** From any supported state: trouble-free rows and no rescue, for as long as the lease lasts. */
  lemma {:induction false} RunIsNeverRescued(setup: Setup, rig: Rig, p: Program, activation: Trigger,
                                             recovery: Trigger, ceiling: int, cutoff: real, b: Bounds,
                                             draws: seq<Draw>)
    requires Supported(setup, rig, p, activation, recovery, ceiling, b)
    requires Unaided(setup, rig, p, cutoff, b, rig.plant.sup.emergencyActivations)
    requires LeasedTicks(rig, rig.plant.world.tick + |draws|)
    requires forall i :: 0 <= i < |draws| ==> Accurate(draws[i], b.epsilon)
    ensures RunLoop(setup, rig, draws, None).plant.sup.emergencyActivations == rig.plant.sup.emergencyActivations
    ensures forall i :: 0 <= i < |RowsOf(setup, rig, draws, None)| ==>
      Untroubled(RowsOf(setup, rig, draws, None)[i], Ramp(rig.plant.world.config, b.heat, b.level, p.minHoldTicks))
  {
    var bound := Ramp(rig.plant.world.config, b.heat, b.level, p.minHoldTicks);
    UnaidedRun(setup, rig, p, activation, recovery, ceiling, cutoff, b, rig.plant.sup.emergencyActivations, draws,
               rig.plant.world.tick + |draws|, bound);
    RunIsIterate(setup, rig, draws);
    RowsShow(setup, rig, draws, TroubleFree(setup, bound), row => Untroubled(row, bound));
  }

  lemma ScenarioIsFresh(setup: Setup, p: Program, config: WorldConfig, initial: Draw)
    requires config.tickSeconds > 0.0 && setup.policy.windowSeconds >= 0.0
    ensures FreshStart(setup, ScenarioStart(p, config, initial), p)
  {
  }

  lemma ScenarioIsLeased(p: Program, config: WorldConfig, initial: Draw, ticks: nat)
    requires ticks as real * config.tickSeconds < p.maximumDurationSeconds as real
    ensures LeasedTicks(ScenarioStart(p, config, initial), ScenarioStart(p, config, initial).plant.world.tick + ticks)
  {
  }

  /** A program compiled from a valid manifest that asks for cooling from `threshold` degrees up, run
      for any leased number of ticks with any readings within `epsilon` of the truth, on a device whose
      fan can hold `level`: the temperature never passes the level by more than the fan-off steps of
      one hold, and if that stays below the emergency threshold the supervisor never intervenes. The
      budget has to afford the switching, by the hold alone or by the rest the physics enforces. */
  lemma {:induction false} AdaptationIsNeverRescued(hash: Manifest -> Hash, m: Manifest, setup: Setup, p: Program,
                                                    config: WorldConfig, initial: Draw, draws: seq<Draw>,
                                                    ceiling: int, b: Bounds)
    requires WellFormed(setup.registry, setup.schema)
    requires CompilerProofs.OnlyTemperatureIsProduced(setup.registry)
    requires CompilerProofs.CompilesToCooling(hash, m, setup.registry, setup.schema, p)
    requires setup.policy.heartbeatMissLimit >= 1
    requires forall c :: c in setup.registry.capabilities && c in {Capability.FanOn, FanOff} ==>
      TransitionCeiling(setup.registry.capabilities[c]) == ceiling
    requires config.tickSeconds > 0.0 && p.minHoldTicks >= 1
    requires Roomy(setup.policy.windowSeconds, ceiling, p.minHoldTicks, b.rest, config.tickSeconds)
    requires Dwells(config, m.activation, m.recovery, p.minHoldTicks, b)
    requires TriggeredAt(m.activation, b.threshold) && b.threshold + b.epsilon <= b.level
    requires config.initialDeviceC <= b.level && HeatWithin(config, config.load, b.heat)
    requires Coolable(config, b.heat, b.epsilon, b.level)
    requires Top(config, b, p.minHoldTicks) + b.epsilon < setup.policy.emergencyC
    requires |draws| as real * config.tickSeconds < m.maximumDurationSeconds as real
    requires forall i :: 0 <= i < |draws| ==> Accurate(draws[i], b.epsilon)
    ensures var start := ScenarioStart(p, config, initial);
      && RunLoop(setup, start, draws, None).plant.sup.emergencyActivations == 0
      && forall i :: 0 <= i < |RowsOf(setup, start, draws, None)| ==>
           Untroubled(RowsOf(setup, start, draws, None)[i], Top(config, b, p.minHoldTicks))
  {
    CompiledIsReady(hash, m, setup, p, ceiling);
    CompilerProofs.ThermalPatternIsCooling(hash, m, setup.registry, setup.schema, p);
    ScenarioIsNeverRescued(setup, p, m.activation, m.recovery, config, initial, draws, ceiling, b);
  }

  lemma {:induction false} ScenarioIsNeverRescued(setup: Setup, p: Program, activation: Trigger, recovery: Trigger,
                                                  config: WorldConfig, initial: Draw, draws: seq<Draw>, ceiling: int,
                                                  b: Bounds)
    requires Ready(setup, p, activation, recovery, ceiling)
    requires config.tickSeconds > 0.0 && p.minHoldTicks >= 1
    requires Roomy(setup.policy.windowSeconds, ceiling, p.minHoldTicks, b.rest, config.tickSeconds)
    requires Dwells(config, activation, recovery, p.minHoldTicks, b)
    requires TriggeredAt(activation, b.threshold) && b.threshold + b.epsilon <= b.level
    requires config.initialDeviceC <= b.level && HeatWithin(config, config.load, b.heat)
    requires Coolable(config, b.heat, b.epsilon, b.level)
    requires Top(config, b, p.minHoldTicks) + b.epsilon < setup.policy.emergencyC
    requires |draws| as real * config.tickSeconds < p.maximumDurationSeconds as real
    requires forall i :: 0 <= i < |draws| ==> Accurate(draws[i], b.epsilon)
    ensures var start := ScenarioStart(p, config, initial);
      && RunLoop(setup, start, draws, None).plant.sup.emergencyActivations == 0
      && forall i :: 0 <= i < |RowsOf(setup, start, draws, None)| ==>
           Untroubled(RowsOf(setup, start, draws, None)[i], Top(config, b, p.minHoldTicks))
  {
    ScenarioIsFresh(setup, p, config, initial);
    ScenarioIsLeased(p, config, initial, |draws|);
    FreshIsNeverRescued(setup, ScenarioStart(p, config, initial), p, activation, recovery, config, draws, ceiling, b);
  }

  /** From any fresh start on a device that is cool and whose fan is off. */
  lemma {:induction false} FreshIsNeverRescued(setup: Setup, start: Rig, p: Program, activation: Trigger,
                                               recovery: Trigger, config: WorldConfig, draws: seq<Draw>, ceiling: int,
                                               b: Bounds)
    requires Ready(setup, p, activation, recovery, ceiling) && FreshStart(setup, start, p)
    requires start.plant.world.config == config && start.plant.world.actuators[Fan] == Off && p.minHoldTicks >= 1
    requires RoomyFor(setup, start, ceiling, b.rest) && Dwells(config, activation, recovery, p.minHoldTicks, b)
    requires TriggeredAt(activation, b.threshold) && b.threshold + b.epsilon <= b.level
    requires start.plant.world.temp <= b.level && HeatWithin(config, start.plant.world.load, b.heat)
    requires Coolable(config, b.heat, b.epsilon, b.level)
    requires Top(config, b, p.minHoldTicks) + b.epsilon < setup.policy.emergencyC
    requires LeasedTicks(start, start.plant.world.tick + |draws|)
    requires forall i :: 0 <= i < |draws| ==> Accurate(draws[i], b.epsilon)
    ensures RunLoop(setup, start, draws, None).plant.sup.emergencyActivations == start.plant.sup.emergencyActivations
    ensures forall i :: 0 <= i < |RowsOf(setup, start, draws, None)| ==>
      Untroubled(RowsOf(setup, start, draws, None)[i], Top(config, b, p.minHoldTicks))
  {
    SupportedStart(setup, start, p, activation, recovery, ceiling, b);
    UnaidedStart(setup, start, p, b);
    RunIsNeverRescued(setup, start, p, activation, recovery, ceiling,
                      WindowStart(setup, config.tickSeconds, start.plant.world.tick + 1), b, draws);
  }

  lemma SupportedStart(setup: Setup, rig: Rig, p: Program, activation: Trigger, recovery: Trigger, ceiling: int,
                       b: Bounds)
    requires Ready(setup, p, activation, recovery, ceiling) && rig.controller.program == p && p.minHoldTicks >= 1
    requires RoomyFor(setup, rig, ceiling, b.rest)
    requires Dwells(rig.plant.world.config, activation, recovery, p.minHoldTicks, b)
    requires TriggeredAt(activation, b.threshold) && b.threshold + b.epsilon <= b.level
    requires Coolable(rig.plant.world.config, b.heat, b.epsilon, b.level)
    requires Top(rig.plant.world.config, b, p.minHoldTicks) + b.epsilon < setup.policy.emergencyC
    ensures Supported(setup, rig, p, activation, recovery, ceiling, b)
  {
  }

  lemma UnaidedStart(setup: Setup, rig: Rig, p: Program, b: Bounds)
    requires FreshStart(setup, rig, p) && p.minHoldTicks >= 1 && rig.plant.world.actuators[Fan] == Off
    requires rig.plant.world.temp <= b.level && HeatWithin(rig.plant.world.config, rig.plant.world.load, b.heat)
    ensures Unaided(setup, rig, p,
                    WindowStart(setup, rig.plant.world.config.tickSeconds, rig.plant.world.tick + 1), b,
                    rig.plant.sup.emergencyActivations)
  {
    FreshIsFaithful(setup, rig, p, b.rest);
  }

  /** The manifest's own shape gives the thresholds. */
  lemma ThresholdsOf(activation: Trigger, recovery: Trigger, threshold: real, recovered: real)
    requires activation == Single(Condition(TemperatureC, GE, threshold))
    requires recovery == Single(Condition(TemperatureC, LT, recovered))
    ensures TriggeredAt(activation, threshold) && OnlyFrom(activation, threshold)
    ensures RecoversBelow(recovery, recovered)
  {
  }
}
