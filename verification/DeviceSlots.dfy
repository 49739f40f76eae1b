/** What every step of a device keeps of its slots: coherence with the state file, a last-known-good
    to fall back to, and the factory image under guarded installs. */
module DeviceSlots {
  import opened Names
  import opened Programs
  import opened Worlds
  import opened Supervisors
  import opened SupervisorProofs
  import opened Runtime
  import opened RuntimeProofs
  import opened Harness
  import opened Slots
  import opened Packages
  import opened Devices
  import opened Runs

  // ----- Coherence -----

  /** An occupied slot was filled at a sequence number the watermark covers, with a lease that has
      never been charged backwards. */
  predicate RecordFine(record: SlotRecord, watermark: int) {
    && (record.artifact.Some? ==> record.sequence.Some? && record.sequence.value <= watermark)
    && (record.lease.Some? ==> record.lease.value.elapsed >= 0.0)
  }

  predicate StateFine(s: DeviceState) {
    && s.watermark >= 0
    && RecordFine(s.a, s.watermark) && RecordFine(s.b, s.watermark)
    && s.Slot(s.active).artifact.Some? && s.Slot(s.lastKnownGood).artifact.Some?
    && (s.status.Probation? ==> s.candidate == Some(s.InactiveSlot()) && s.Slot(s.InactiveSlot()).artifact.Some?)
  }

  /** The controller is the running slot's, and the supervisor allows exactly what it declared. */
  predicate Attached(d: Device) {
    && d.controller.Some?
    && d.state.Running().artifact == Some(d.controller.value.program)
    && d.plant.sup.allowed == d.controller.value.program.CapabilitiesUsed()
  }

  /** Between any two events: the state file holds the device's state, nothing is half installed, and
      there is always something to fall back to. */
  predicate Coherent(d: Device) {
    d.saved == d.state && StateFine(d.state) && Attached(d) && d.plant.world.config.tickSeconds > 0.0
  }

  lemma ControlFrame(setup: Setup, p: Plant, c: Controller, crash: bool)
    requires setup.Valid()
    ensures var phase := ControlPhase(setup, p, c, crash);
      && SamePhysics(p, phase.plant) && phase.plant.sup.allowed == p.sup.allowed
      && phase.controller.program == c.program && phase.controller.startedAt == c.startedAt
      && (phase.faulted ==> phase.plant.sup.state.SafeState?)
  {
    if p.sup.state.Normal? {
      var result := if crash then Fault else Step(c, Observe(p.world));
      match result
      case Fault =>
        FaultFrame(setup, p);
      case Stepped(e) =>
        IntentsFrame(setup, p, e.intents, p.world.time);
        RulesStampTicks(Counted(c), c.program.rules, Observe(p.world));
    }
  }

  lemma FaultFrame(setup: Setup, p: Plant)
    requires setup.Valid()
    ensures var q := EnforceLocalPolicy(setup, p.(sup := EnterSafeState(p.sup)), MetricsOf(p.world), p.world.time);
      SamePhysics(p, q) && q.sup.allowed == p.sup.allowed && q.sup.state.SafeState?
  {
    var safe := p.(sup := EnterSafeState(p.sup));
    var metrics := MetricsOf(p.world);
    EnforceFrame(setup, safe, metrics, p.world.time);
    var first := Emergency(setup, safe, metrics, p.world.time);
    SafeAllFrame(setup, first, setup.registry.actuatorOrder, Lookup(metrics, TemperatureC), p.world.time);
  }

  lemma PolicyFrame(setup: Setup, p: Plant, draw: Draw)
    requires setup.Valid()
    ensures var q := PolicyPhase(setup, p, draw);
      SamePhysics(Plant(StepWorld(p.world, draw), p.sup), q) && q.sup.allowed == p.sup.allowed
  {
    var w := StepWorld(p.world, draw);
    EnforceFrame(setup, Plant(w, p.sup), MetricsOf(w), w.time);
  }

  /** A revert with something to fall back to: the slot bookkeeping is done and saved, and the
      last-known-good artifact has just been started on an untouched physics. */
  lemma RevertOutcome(fx: Fixture, d: Device)
    requires fx.setup.Valid() && d.state.Slot(d.state.lastKnownGood).artifact.Some?
    ensures var r := RevertLocal(fx, d);
      var program := d.state.Slot(d.state.lastKnownGood).artifact.value;
      && r.state == Reverted(d.state) && r.saved == r.state
      && SamePhysics(d.plant, r.plant)
      && r.controller.Some? && r.controller.value.program == program
      && r.controller.value.startedAt == Some(d.plant.world.time)
      && r.plant.sup.allowed == program.CapabilitiesUsed() && r.plant.sup.state.Normal?
  {
    var program := d.state.Slot(d.state.lastKnownGood).artifact.value;
    if d.controller.Some? {
      IntentsFrame(fx.setup, d.plant, Shutdown(d.controller.value).intents, d.plant.world.time);
    }
    var started := Start(RunFallback(fx, d).(state := Reverted(d.state)), program);
    ManageUnownedFrame(fx.setup, started.plant, MetricsOf(started.plant.world), started.plant.world.time);
  }

  lemma RevertedIsFine(s: DeviceState)
    requires StateFine(s.(status := if s.status.Probation? then Slots.Failed else s.status))
    ensures StateFine(Reverted(s)) && Reverted(s).RunningSlot() == s.lastKnownGood
    ensures Reverted(s).Running().artifact == s.Slot(s.lastKnownGood).artifact
  {
  }

  lemma RevertIsCoherent(fx: Fixture, d: Device)
    requires fx.setup.Valid() && d.plant.world.config.tickSeconds > 0.0
    requires StateFine(d.state.(status := if d.state.status.Probation? then Slots.Failed else d.state.status))
    ensures Coherent(RevertLocal(fx, d)) && SamePhysics(d.plant, RevertLocal(fx, d).plant)
  {
    RevertedIsFine(d.state);
    RevertOutcome(fx, d);
  }

  lemma ChargedIsFine(s: DeviceState, delta: real)
    requires StateFine(s) && delta > 0.0
    ensures var c := Charged(s, delta);
      && StateFine(c) && c == s.(a := c.a, b := c.b) && c.RunningSlot() == s.RunningSlot()
      && c.Running() == s.Running().(lease := c.Running().lease)
      && c.Slot(s.InactiveSlot()).artifact == s.Slot(s.InactiveSlot()).artifact
  {
  }

  lemma ChargeIsCoherent(fx: Fixture, d: Device, wall: real)
    requires fx.setup.Valid() && Coherent(d)
    ensures Coherent(ChargeLease(fx, d, wall))
    ensures SamePhysics(d.plant, ChargeLease(fx, d, wall).plant)
  {
    if d.state.Running().lease.Some? {
      var charged := d.(state := Charged(d.state, d.plant.world.config.tickSeconds));
      ChargedIsFine(d.state, d.plant.world.config.tickSeconds);
      RevertIsCoherent(fx, charged);
    }
  }

  lemma PolicyIsCoherent(fx: Fixture, d: Device, draw: Draw)
    requires fx.setup.Valid() && Coherent(d)
    ensures Coherent(d.(plant := PolicyPhase(fx.setup, d.plant, draw)))
  {
    PolicyFrame(fx.setup, d.plant, draw);
  }

  lemma ControlIsCoherent(fx: Fixture, d: Device, crash: bool)
    requires fx.setup.Valid() && Coherent(d)
    ensures var (r, faulted) := Control(fx, d, crash);
      Coherent(r) && r.state == d.state && SamePhysics(d.plant, r.plant)
      && r.controller.value.startedAt == d.controller.value.startedAt
  {
    ControlFrame(fx.setup, d.plant, d.controller.value, crash);
  }

  lemma CandidateFault(fx: Fixture, d: Device)
    requires fx.setup.Valid() && Coherent(d) && d.state.status.Probation?
    ensures Coherent(HandleFault(fx, d)) && SamePhysics(d.plant, HandleFault(fx, d).plant)
  {
    RevertIsCoherent(fx, Save(d.(state := d.state.(failures := d.state.failures + 1, status := Slots.Failed))));
  }

  lemma EstablishedFault(fx: Fixture, d: Device)
    requires fx.setup.Valid() && Coherent(d) && !d.state.status.Probation?
    ensures Coherent(HandleFault(fx, d)) && SamePhysics(d.plant, HandleFault(fx, d).plant)
  {
    if d.state.failures + 1 >= Config.LOCAL_FAILURE_LIMIT {
      RevertIsCoherent(fx, Save(d.(state := d.state.(failures := d.state.failures + 1))));
    }
  }

  lemma FaultIsCoherent(fx: Fixture, d: Device)
    requires fx.setup.Valid() && Coherent(d)
    ensures Coherent(HandleFault(fx, d)) && SamePhysics(d.plant, HandleFault(fx, d).plant)
  {
    if d.state.status.Probation? {
      CandidateFault(fx, d);
    } else {
      EstablishedFault(fx, d);
    }
  }

  lemma ScoreIsCoherent(fx: Fixture, d: Device)
    requires fx.setup.Valid() && Coherent(d)
    ensures Coherent(ScoreProbation(fx, d)) && SamePhysics(d.plant, ScoreProbation(fx, d).plant)
  {
    if d.state.status.Probation? && d.plant.sup.state != Normal {
      var failed := Save(d.(state := d.state.(status := Slots.Failed)));
      RevertIsCoherent(fx, failed);
    }
  }

  lemma TickIsCoherent(fx: Fixture, d: Device, draw: Draw, wall: real, crash: bool)
    requires fx.setup.Valid() && Coherent(d)
    ensures Coherent(BeforeControl(fx, d, draw, wall)) && Coherent(Tick(fx, d, draw, wall, crash))
    ensures SamePhysics(Plant(StepWorld(d.plant.world, draw), d.plant.sup), Tick(fx, d, draw, wall, crash).plant)
    ensures SamePhysics(Plant(StepWorld(d.plant.world, draw), d.plant.sup), BeforeControl(fx, d, draw, wall).plant)
  {
    PolicyFrame(fx.setup, d.plant, draw);
    PolicyIsCoherent(fx, d, draw);
    ChargeIsCoherent(fx, d.(plant := PolicyPhase(fx.setup, d.plant, draw)), wall);
    var before := BeforeControl(fx, d, draw, wall);
    ControlIsCoherent(fx, before, crash);
    FaultIsCoherent(fx, Control(fx, before, crash).0);
    ScoreIsCoherent(fx, Control(fx, before, crash).0);
  }

  lemma InstallIsCoherent(fx: Fixture, d: Device, package: Package, leaseWall: real, recordWall: real)
    requires Coherent(d)
    ensures Coherent(Install(fx, d, package, leaseWall, recordWall))
  {
    if Judge(fx, d, package).None? {
      assert package.sequence > d.state.watermark;
    }
  }

  lemma HappeningIsCoherent(fx: Fixture, d: Device, h: Happening)
    requires fx.setup.Valid() && Coherent(d)
    ensures Coherent(Do(fx, d, h))
  {
    match h
    case TickHappens(draw, wall, crash) => TickIsCoherent(fx, d, draw, wall, crash);
    case PackageArrives(package, leaseWall, recordWall) => InstallIsCoherent(fx, d, package, leaseWall, recordWall);
    case _ =>
  }

  ghost function Anything(): (Device, Happening) -> bool { (d: Device, h: Happening) => true }

  lemma {:induction false} AnythingGoes(fx: Fixture, d: Device, run: seq<Happening>)
    requires fx.setup.Valid()
    ensures Throughout(Doer(fx), Anything(), d, run)
    decreases |run|
  {
    if run != [] {
      AnythingGoes(fx, Doer(fx)(d, run[0]), run[1..]);
    }
  }

  /** From provisioning on, whatever happens and in whatever order, the device is coherent at every
      boundary: what it would resume from is what it is running. */
  lemma {:induction false} AlwaysCoherent(fx: Fixture, world: World, program: Program, wall: real, run: seq<Happening>)
    requires fx.setup.Valid() && world.config.tickSeconds > 0.0
    ensures Coherent(Iterate(Doer(fx), Provision(fx, Boot(world, BLANK), program, wall), run))
  {
    var start := Provision(fx, Boot(world, BLANK), program, wall);
    forall d, h | Coherent(d) && Anything()(d, h)
      ensures Coherent(Doer(fx)(d, h)) && Anything()(d, h)
    {
      HappeningIsCoherent(fx, d, h);
    }
    AnythingGoes(fx, start, run);
    Carry(Doer(fx), Coherent, Anything(), Anything(), start, run);
  }

  /** Hence a revert always finds an artifact: the device is never left to the safe state alone. */
  lemma RevertAlwaysSucceeds(fx: Fixture, d: Device)
    requires fx.setup.Valid() && Coherent(d)
    ensures var r := RevertLocal(fx, d);
      && r.state.RunningSlot() == d.state.lastKnownGood
      && Some(r.controller.value.program) == d.state.Slot(d.state.lastKnownGood).artifact
      && r.plant.sup.state.Normal?
  {
    RevertOutcome(fx, d);
    RevertedIsFine(d.state);
  }
}
