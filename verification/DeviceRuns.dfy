/** The two clocks of a leased morph, and the device against the harness that verified its program. */
module DeviceRuns {
  import opened Names
  import opened Programs
  import opened Worlds
  import opened Supervisors
  import opened Runtime
  import opened Harness
  import opened Slots
  import opened Devices
  import opened DeviceSlots
  import opened Runs
  import opened RuntimeProofs
  import opened SupervisorProofs
  import Adaptation
  import CompilerProofs

  // ----- Lease and lifetime -----

  /** The world's clock is its tick count. */
  predicate OnTime(w: World) { w.time == w.tick as real * w.config.tickSeconds }

  /** The controller has been running no longer than its lease has been charged for. */
  predicate LeaseLeads(d: Device) {
    && d.controller.Some? && d.controller.value.startedAt.Some?
    && (d.state.Running().lease.Some? ==>
          d.plant.world.time - d.controller.value.startedAt.value <= d.state.Running().lease.value.elapsed)
  }

  predicate InStep(d: Device) { Coherent(d) && OnTime(d.plant.world) && LeaseLeads(d) }

  lemma FreshlyStartedLeads(d: Device)
    requires Coherent(d) && d.controller.value.startedAt == Some(d.plant.world.time)
    ensures LeaseLeads(d)
  {
  }

  lemma RevertLeads(fx: Fixture, d: Device)
    requires fx.setup.Valid() && d.plant.world.config.tickSeconds > 0.0
    requires StateFine(d.state.(status := if d.state.status.Probation? then Slots.Failed else d.state.status))
    ensures LeaseLeads(RevertLocal(fx, d))
  {
    RevertOutcome(fx, d);
    RevertIsCoherent(fx, d);
    FreshlyStartedLeads(RevertLocal(fx, d));
  }

  /** One charge behind: the world has stepped, the lease has not been charged for it yet. */
  predicate OneBehind(d: Device) {
    && d.controller.Some? && d.controller.value.startedAt.Some?
    && (d.state.Running().lease.Some? ==>
          d.plant.world.time - d.controller.value.startedAt.value
            <= d.state.Running().lease.value.elapsed + d.plant.world.config.tickSeconds)
  }

  /** The state before control is in step, and either freshly started or on a lease that holds. */
  predicate ReadyToStep(before: Device, wall: real) {
    && LeaseLeads(before)
    && (before.controller.value.startedAt == Some(before.plant.world.time)
        || (before.state.Running().lease.Some? ==> !before.state.Running().lease.value.Expired(wall)))
  }

  /** Charging keeps pace; a spent lease ends in a fresh start. */
  lemma ChargeKeepsPace(fx: Fixture, d: Device, wall: real)
    requires fx.setup.Valid() && Coherent(d) && OneBehind(d)
    ensures ReadyToStep(ChargeLease(fx, d, wall), wall)
  {
    if d.state.Running().lease.Some? {
      var charged := d.(state := Charged(d.state, d.plant.world.config.tickSeconds));
      ChargedIsFine(d.state, d.plant.world.config.tickSeconds);
      if charged.state.Running().lease.value.Expired(wall) {
        RevertLeads(fx, charged);
        RevertOutcome(fx, charged);
      }
    }
  }

  lemma WorldRunsAhead(fx: Fixture, d: Device, draw: Draw)
    requires fx.setup.Valid() && InStep(d)
    ensures var policed := d.(plant := PolicyPhase(fx.setup, d.plant, draw));
      Coherent(policed) && OneBehind(policed) && OnTime(policed.plant.world)
  {
    var delta := d.plant.world.config.tickSeconds;
    PolicyFrame(fx.setup, d.plant, draw);
    PolicyIsCoherent(fx, d, draw);
    assert (d.plant.world.tick + 1) as real * delta == d.plant.world.tick as real * delta + delta;
  }

  lemma ChargedInTime(fx: Fixture, d: Device, wall: real)
    requires fx.setup.Valid() && Coherent(d) && OneBehind(d) && OnTime(d.plant.world)
    ensures ReadyToStep(ChargeLease(fx, d, wall), wall) && OnTime(ChargeLease(fx, d, wall).plant.world)
  {
    ChargeKeepsPace(fx, d, wall);
    ChargeIsCoherent(fx, d, wall);
    StaysOnTime(d.plant, ChargeLease(fx, d, wall).plant);
  }

  lemma StaysOnTime(p: Plant, q: Plant)
    requires OnTime(p.world) && SamePhysics(p, q)
    ensures OnTime(q.world)
  {
  }

  lemma ChargeLeads(fx: Fixture, d: Device, draw: Draw, wall: real)
    requires fx.setup.Valid() && InStep(d)
    ensures var before := BeforeControl(fx, d, draw, wall);
      ReadyToStep(before, wall) && OnTime(before.plant.world)
  {
    WorldRunsAhead(fx, d, draw);
    ChargedInTime(fx, d.(plant := PolicyPhase(fx.setup, d.plant, draw)), wall);
  }

  lemma BookkeepingLeads(fx: Fixture, d: Device)
    requires fx.setup.Valid() && Coherent(d) && LeaseLeads(d)
    ensures LeaseLeads(HandleFault(fx, d)) && LeaseLeads(ScoreProbation(fx, d))
  {
    FaultLeads(fx, d);
    ScoreLeads(fx, d);
  }

  lemma FaultLeads(fx: Fixture, d: Device)
    requires fx.setup.Valid() && Coherent(d) && LeaseLeads(d)
    ensures LeaseLeads(HandleFault(fx, d))
  {
    var counted := d.(state := d.state.(failures := d.state.failures + 1));
    if d.state.status.Probation? {
      RevertLeads(fx, Save(d.(state := d.state.(failures := d.state.failures + 1, status := Slots.Failed))));
    } else {
      RevertLeads(fx, Save(counted));
    }
  }

  lemma ScoreLeads(fx: Fixture, d: Device)
    requires fx.setup.Valid() && Coherent(d) && LeaseLeads(d)
    ensures LeaseLeads(ScoreProbation(fx, d))
  {
    if d.state.status.Probation? {
      RevertLeads(fx, Save(d.(state := d.state.(status := Slots.Failed))));
    }
  }

  lemma TickLeads(fx: Fixture, d: Device, draw: Draw, wall: real, crash: bool)
    requires fx.setup.Valid() && InStep(d)
    ensures InStep(Tick(fx, d, draw, wall, crash))
  {
    var before := BeforeControl(fx, d, draw, wall);
    TickIsCoherent(fx, d, draw, wall, crash);
    ChargeLeads(fx, d, draw, wall);
    ControlIsCoherent(fx, before, crash);
    BookkeepingLeads(fx, Control(fx, before, crash).0);
  }

  lemma HappeningLeads(fx: Fixture, d: Device, h: Happening)
    requires fx.setup.Valid() && InStep(d)
    ensures InStep(Do(fx, d, h))
  {
    HappeningIsCoherent(fx, d, h);
    match h
    case TickHappens(draw, wall, crash) => TickLeads(fx, d, draw, wall, crash);
    case PackageArrives(package, leaseWall, recordWall) =>
      if Judge(fx, d, package).None? { FreshlyStartedLeads(Do(fx, d, h)); }
    case _ => FreshlyStartedLeads(Do(fx, d, h));
  }

  lemma {:induction false} AlwaysInStep(fx: Fixture, world: World, program: Program, wall: real, run: seq<Happening>)
    requires fx.setup.Valid() && world.config.tickSeconds > 0.0 && OnTime(world)
    ensures InStep(Iterate(Doer(fx), Provision(fx, Boot(world, BLANK), program, wall), run))
  {
    var start := Provision(fx, Boot(world, BLANK), program, wall);
    forall d, h {:trigger Anything()(d, h)} | InStep(d) && Anything()(d, h)
      ensures InStep(Doer(fx)(d, h))
    {
      HappeningLeads(fx, d, h);
    }
    AnythingGoes(fx, start, run);
    Carry(Doer(fx), InStep, Anything(), Anything(), start, run);
  }

  /** On any tick of any run from provisioning on: an artifact whose lease is as long as its own
      lifetime is reverted before its controller could yield by itself. */
  lemma LeaseEndsBeforeYield(fx: Fixture, d: Device, draw: Draw, wall: real)
    requires fx.setup.Valid() && InStep(d)
    ensures var before := BeforeControl(fx, d, draw, wall);
      var lease := before.state.Running().lease;
      var program := before.controller.value.program;
      (lease.Some? && lease.value.duration == program.maximumDurationSeconds && lease.value.duration > 0)
      ==> !Elapsed(before.controller.value, before.plant.world.time)
  {
    ChargeLeads(fx, d, draw, wall);
  }

  /** On the device the fallback runs whenever a revert ends a controller's turn, and there too without
      regard to the hold: whatever the controller last commanded and however recently, a fallback
      command that the supervisor accepts changes the fan at once. */
  lemma RevertIgnoresHold(fx: Fixture, d: Device, spec: IntentSpec, level: Level, ceiling: int)
    requires d.controller.Some? && d.controller.value.program.fallback == [spec] && FanSpec(spec, level)
    requires CompilerProofs.StaticallyFine(fx.setup, spec) && spec.capability in d.plant.sup.allowed
    requires TransitionCeiling(fx.setup.registry.capabilities[spec.capability]) == ceiling
    requires d.plant.sup.state.Normal? && !d.plant.sup.emergency && d.plant.world.actuators[Fan] != level
    requires Adaptation.Room(fx.setup, d.plant.sup.log, d.plant.world.time, ceiling)
    ensures RunFallback(fx, d).plant.world == SetActuator(d.plant.world, Fan, level)
  {
    var intents := Shutdown(d.controller.value).intents;
    assert intents == [Intent(spec, d.controller.value.steps)] && intents[1..] == [];
    Adaptation.CommandIsWeighed(fx.setup, d.plant, intents[0], level, d.plant.world.time, ceiling);
    var next := Consider(fx.setup, d.plant, intents[0], d.plant.world.time);
    assert ApplyIntents(fx.setup, next, intents[1..], d.plant.world.time) == next;
    assert ApplyIntents(fx.setup, d.plant, intents, d.plant.world.time) == next;
  }

  // ----- The harness is the device -----

  function RigOf(d: Device): Rig
    requires d.controller.Some?
  {
    Rig(d.plant, d.controller.value)
  }

  /** A tick on which the device's own bookkeeping does not interfere: the lease holds, the controller
      does not fault, and a candidate on probation stays healthy. */
  predicate SmoothTick(fx: Fixture, d: Device, h: Happening)
    requires fx.setup.Valid()
  {
    && h.TickHappens? && !h.crash && d.controller.Some?
    && (d.state.Running().lease.Some? ==>
          !Charged(d.state, d.plant.world.config.tickSeconds).Running().lease.value.Expired(h.wall))
    && var phase := LoopPhase(fx.setup, RigOf(d), h.draw, false);
       !phase.faulted && (d.state.status.Probation? ==> phase.plant.sup.state.Normal?)
  }

  ghost function Smooth(fx: Fixture): (Device, Happening) -> bool
    requires fx.setup.Valid()
  {
    (d: Device, h: Happening) => SmoothTick(fx, d, h)
  }

  lemma SmoothTickIsLoopTick(fx: Fixture, d: Device, h: Happening)
    requires fx.setup.Valid() && Coherent(d) && SmoothTick(fx, d, h)
    ensures Do(fx, d, h).controller.Some?
    ensures RigOf(Do(fx, d, h)) == LoopTick(fx.setup, RigOf(d), h.draw, false)
  {
    PolicyFrame(fx.setup, d.plant, h.draw);
    ChargedIsFine(d.state, d.plant.world.config.tickSeconds);
  }

  function DrawOf(h: Happening): Draw { if h.TickHappens? then h.draw else Draw(0.0, 0.0) }

  /** Through any smooth stretch the device's world, supervisor and controller go exactly where the
      harness loop that verified the program takes them from the same state. */
  lemma {:induction false} HarnessIsTheDevice(fx: Fixture, d: Device, run: seq<Happening>)
    requires fx.setup.Valid() && Coherent(d) && Throughout(Doer(fx), Smooth(fx), d, run)
    ensures var after := Iterate(Doer(fx), d, run);
      && after.controller.Some?
      && RigOf(after) == RunLoop(fx.setup, RigOf(d), Each(DrawOf, run), None)
  {
    var view := (e: Device) => if e.controller.Some? then RigOf(e) else RigOf(d);
    forall e, h {:trigger Smooth(fx)(e, h)} | Coherent(e) && Smooth(fx)(e, h)
      ensures Coherent(Doer(fx)(e, h)) && view(Doer(fx)(e, h)) == Ticker(fx.setup)(view(e), DrawOf(h))
    {
      HappeningIsCoherent(fx, e, h);
      SmoothTickIsLoopTick(fx, e, h);
    }
    Carry(Doer(fx), Coherent, Smooth(fx), Smooth(fx), d, run);
    Follows(Doer(fx), Ticker(fx.setup), view, DrawOf, Coherent, Smooth(fx), d, run);
    RunIsIterate(fx.setup, RigOf(d), Each(DrawOf, run));
  }

  // ----- Promotion -----

  /** On probation, with so many healthy ticks to go, over a given pair of slots. */
  predicate OnProbation(s: DeviceState, left: int, active: SlotName) {
    && s.status.Probation? && s.probationLeft == left && s.active == active
    && s.candidate == Some(s.InactiveSlot())
  }

  /** Promoted: the candidate is active and what was active before is last-known-good. */
  predicate Succeeded(s: DeviceState, active: SlotName) {
    s.status.Activated? && s.lastKnownGood == active && s.active != active
  }

  lemma HealthyTick(fx: Fixture, d: Device, h: Happening, left: int, active: SlotName)
    requires fx.setup.Valid() && Coherent(d) && SmoothTick(fx, d, h) && OnProbation(d.state, left, active)
    ensures if left > 1 then OnProbation(Do(fx, d, h).state, left - 1, active)
            else Succeeded(Do(fx, d, h).state, active)
    ensures Do(fx, d, h).state.Slot(active) == d.state.Slot(active)
  {
    PolicyFrame(fx.setup, d.plant, h.draw);
    ChargedIsFine(d.state, d.plant.world.config.tickSeconds);
  }

  /** A candidate is promoted by exactly the configured number of healthy ticks, not earlier, and the
      slot it took over from becomes last-known-good untouched. */
  lemma {:induction false} HealthyTicksPromote(fx: Fixture, d: Device, run: seq<Happening>, left: int,
                                               active: SlotName)
    requires fx.setup.Valid() && Coherent(d) && OnProbation(d.state, left, active)
    requires Throughout(Doer(fx), Smooth(fx), d, run) && |run| <= left && left >= 1
    ensures var s := Iterate(Doer(fx), d, run).state;
      && (if |run| < left then OnProbation(s, left - |run|, active) else Succeeded(s, active))
      && s.Slot(active) == d.state.Slot(active)
    decreases |run|
  {
    if run != [] {
      HealthyTick(fx, d, run[0], left, active);
      HappeningIsCoherent(fx, d, run[0]);
      if |run| > 1 {
        HealthyTicksPromote(fx, Doer(fx)(d, run[0]), run[1..], left - 1, active);
      }
    }
  }
}
