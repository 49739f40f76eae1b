/** A/B safety and the lease bound over ticks, restarts and guarded installs, and what fails without
    the guard. */
module DeviceLeases {
  import opened Names
  import opened Arithmetic
  import opened Programs
  import opened Worlds
  import opened Supervisors
  import opened Harness
  import opened Slots
  import opened Packages
  import opened Devices
  import opened DeviceSlots
  import opened Runs
  import Compiler
  import Config

  // ----- The guard -----

  /** A step that provisions nothing and accepts a package only while the active slot is the
      last-known-good one. */
  predicate GuardedStep(fx: Fixture, d: Device, h: Happening) {
    && !h.ProvisionHappens?
    && (h.PackageArrives? && Judge(fx, d, h.package).None? ==> d.state.active == d.state.lastKnownGood)
  }

  ghost function Guarded(fx: Fixture): (Device, Happening) -> bool {
    (d: Device, h: Happening) => GuardedStep(fx, d, h)
  }

  /** The guard is exact: an accepted package leaves the last-known-good record alone if and only if
      the active slot is the last-known-good one. */
  lemma GuardIsExact(fx: Fixture, d: Device, package: Package, leaseWall: real, recordWall: real)
    requires Coherent(d) && Judge(fx, d, package).None?
    ensures var after := Install(fx, d, package, leaseWall, recordWall);
      (after.state.Slot(d.state.lastKnownGood) == d.state.Slot(d.state.lastKnownGood)
       <==> d.state.active == d.state.lastKnownGood)
  {
    assert package.sequence > d.state.watermark;
  }

  /** Without it the fall-back is lost: the package overwrites last-known-good, so a revert lands on
      the very candidate it was to undo, and lands there without a lease. */
  lemma UnguardedRevertKeepsTheCandidate(fx: Fixture, d: Device, package: Package, leaseWall: real, recordWall: real)
    requires fx.setup.Valid() && Coherent(d) && Judge(fx, d, package).None?
    requires d.state.active != d.state.lastKnownGood
    ensures var r := RevertLocal(fx, Install(fx, d, package, leaseWall, recordWall));
      && r.controller.Some? && r.controller.value.program == package.artifact
      && r.state.Running().sequence == Some(package.sequence)
      && r.state.Running().lease.None?
  {
    InstallIsCoherent(fx, d, package, leaseWall, recordWall);
    var after := Install(fx, d, package, leaseWall, recordWall);
    RevertOutcome(fx, after);
    RevertedIsFine(after.state);
  }

  // ----- A/B safety -----

  /** Slot A is last-known-good and holds the factory image; a candidate sits in slot B, on top of it. */
  predicate Grounded(s: DeviceState, factory: SlotRecord) {
    && s.lastKnownGood.SlotA? && s.a == factory
    && factory.artifact.Some? && factory.lease.None? && factory.sequence == Some(0)
    && (s.status.Probation? ==> s.candidate == Some(SlotB) && s.active.SlotA?)
  }

  lemma RevertedIsGrounded(s: DeviceState, factory: SlotRecord)
    requires Grounded(s.(status := if s.status.Probation? then Slots.Failed else s.status), factory)
    ensures Grounded(Reverted(s), factory) && Reverted(s).RunningSlot() == SlotA
  {
  }

  /** From a grounded state every revert restores the factory image. */
  lemma RevertRestoresFactory(fx: Fixture, d: Device, factory: SlotRecord)
    requires fx.setup.Valid() && Coherent(d) && Grounded(d.state, factory)
    ensures var r := RevertLocal(fx, d);
      && r.state.Running() == factory && Some(r.controller.value.program) == factory.artifact
      && Grounded(r.state, factory)
  {
    RevertOutcome(fx, d);
    RevertedIsGrounded(d.state, factory);
  }

  /** What happens to the slots of a grounded device, as far as leases are concerned: nothing, a charge
      to the running lease, or a return to the factory image. `delta` is the charge. */
  datatype Fate = Returned | Kept(charged: bool)

  predicate Met(before: DeviceState, after: DeviceState, fate: Fate, delta: real) {
    after.watermark == before.watermark &&
    match fate
    case Returned => after.RunningSlot() == SlotA
    case Kept(charged) =>
      && after.RunningSlot() == before.RunningSlot()
      && after.Running() == if charged then Charged(before, delta).Running() else before.Running()
  }

  lemma ChargeFate(fx: Fixture, d: Device, wall: real, factory: SlotRecord)
    requires fx.setup.Valid() && Coherent(d) && Grounded(d.state, factory)
    ensures var r := ChargeLease(fx, d, wall);
      var charged := Charged(d.state, d.plant.world.config.tickSeconds);
      && Grounded(r.state, factory)
      && (if charged.Running().lease.Some? && charged.Running().lease.value.Expired(wall)
          then Met(d.state, r.state, Returned, 0.0)
          else Met(d.state, r.state, Kept(true), d.plant.world.config.tickSeconds))
  {
    var charged := d.(state := Charged(d.state, d.plant.world.config.tickSeconds));
    ChargedIsFine(d.state, d.plant.world.config.tickSeconds);
    if d.state.Running().lease.Some? {
      RevertOutcome(fx, charged);
      RevertedIsGrounded(charged.state, factory);
    }
  }

  lemma FaultFate(fx: Fixture, d: Device, factory: SlotRecord)
    requires fx.setup.Valid() && Coherent(d) && Grounded(d.state, factory)
    ensures var r := HandleFault(fx, d);
      Grounded(r.state, factory)
      && (Met(d.state, r.state, Returned, 0.0) || Met(d.state, r.state, Kept(false), 0.0))
  {
    var counted := d.(state := d.state.(failures := d.state.failures + 1));
    var failed := Save(counted.(state := counted.state.(status := Slots.Failed)));
    if counted.state.status.Probation? {
      RevertOutcome(fx, failed);
      RevertedIsGrounded(failed.state, factory);
    } else if counted.state.failures >= Config.LOCAL_FAILURE_LIMIT {
      RevertOutcome(fx, Save(counted));
      RevertedIsGrounded(counted.state, factory);
    }
  }

  lemma ScoreFate(fx: Fixture, d: Device, factory: SlotRecord)
    requires fx.setup.Valid() && Coherent(d) && Grounded(d.state, factory)
    ensures var r := ScoreProbation(fx, d);
      Grounded(r.state, factory)
      && (Met(d.state, r.state, Returned, 0.0) || Met(d.state, r.state, Kept(false), 0.0))
  {
    var failed := Save(d.(state := d.state.(status := Slots.Failed)));
    if d.state.status.Probation? && d.plant.sup.state != Normal {
      RevertOutcome(fx, failed);
      RevertedIsGrounded(failed.state, factory);
    }
  }

  /** One tick of a grounded device: either it is back on the factory image, or the running slot is
      the same with its lease charged once and not yet spent. */
  lemma TickFate(fx: Fixture, d: Device, draw: Draw, wall: real, crash: bool, factory: SlotRecord)
    requires fx.setup.Valid() && Coherent(d) && Grounded(d.state, factory)
    ensures var delta := d.plant.world.config.tickSeconds;
      var charged := Charged(d.state, delta).Running().lease;
      var before := BeforeControl(fx, d, draw, wall);
      var after := Tick(fx, d, draw, wall, crash);
      && Grounded(after.state, factory)
      && (charged.Some? && charged.value.Expired(wall) ==>
            Met(d.state, before.state, Returned, delta) && Met(d.state, after.state, Returned, delta))
      && (!(charged.Some? && charged.value.Expired(wall)) ==>
            Met(d.state, before.state, Kept(true), delta)
            && (Met(d.state, after.state, Returned, delta) || Met(d.state, after.state, Kept(true), delta)))
  {
    var policed := d.(plant := PolicyPhase(fx.setup, d.plant, draw));
    PolicyFrame(fx.setup, d.plant, draw);
    PolicyIsCoherent(fx, d, draw);
    ChargeIsCoherent(fx, policed, wall);
    ChargeFate(fx, policed, wall, factory);
    var before := BeforeControl(fx, d, draw, wall);
    ControlIsCoherent(fx, before, crash);
    FaultFate(fx, Control(fx, before, crash).0, factory);
    ScoreFate(fx, Control(fx, before, crash).0, factory);
  }

  lemma GuardedInstallIsGrounded(fx: Fixture, d: Device, package: Package, leaseWall: real, recordWall: real,
                                 factory: SlotRecord)
    requires Coherent(d) && Grounded(d.state, factory)
    requires Judge(fx, d, package).None? ==> d.state.active == d.state.lastKnownGood
    ensures Grounded(Install(fx, d, package, leaseWall, recordWall).state, factory)
  {
  }

  lemma StepIsGrounded(fx: Fixture, d: Device, h: Happening, factory: SlotRecord)
    requires fx.setup.Valid() && Coherent(d) && Grounded(d.state, factory) && GuardedStep(fx, d, h)
    ensures Coherent(Do(fx, d, h)) && Grounded(Do(fx, d, h).state, factory)
  {
    HappeningIsCoherent(fx, d, h);
    match h
    case TickHappens(draw, wall, crash) => TickFate(fx, d, draw, wall, crash, factory);
    case PackageArrives(package, leaseWall, recordWall) =>
      GuardedInstallIsGrounded(fx, d, package, leaseWall, recordWall, factory);
    case _ =>
  }

  /** A/B safety: under the guard, in every state reachable after provisioning the last-known-good
      slot holds exactly the provisioned, lease-free image, and a probation candidate sits in the
      other, inactive slot. */
  lemma {:induction false} FactoryImageSurvives(fx: Fixture, world: World, program: Program, wall: real,
                                                run: seq<Happening>)
    requires fx.setup.Valid() && world.config.tickSeconds > 0.0
    requires Throughout(Doer(fx), Guarded(fx), Provision(fx, Boot(world, BLANK), program, wall), run)
    ensures var start := Provision(fx, Boot(world, BLANK), program, wall);
      var s := Iterate(Doer(fx), start, run).state;
      && s.lastKnownGood == SlotA && s.a == start.state.a && s.a.artifact == Some(program) && s.a.lease.None?
      && (s.status.Probation? ==>
            s.candidate == Some(s.InactiveSlot()) && s.InactiveSlot() != s.lastKnownGood)
  {
    var start := Provision(fx, Boot(world, BLANK), program, wall);
    var factory := start.state.a;
    var inv := (d: Device) => Coherent(d) && Grounded(d.state, factory);
    forall d, h | inv(d) && Guarded(fx)(d, h)
      ensures inv(Doer(fx)(d, h))
    {
      StepIsGrounded(fx, d, h, factory);
    }
    Carry(Doer(fx), inv, Guarded(fx), Anything(), start, run);
  }

  /** What runs on top of the factory image runs on a lease. */
  predicate Tethered(s: DeviceState) { s.RunningSlot().SlotB? ==> s.b.lease.Some? }

  lemma TickIsTethered(fx: Fixture, d: Device, draw: Draw, wall: real, crash: bool, factory: SlotRecord)
    requires fx.setup.Valid() && Coherent(d) && Grounded(d.state, factory) && Tethered(d.state)
    ensures Tethered(BeforeControl(fx, d, draw, wall).state) && Tethered(Tick(fx, d, draw, wall, crash).state)
  {
    TickFate(fx, d, draw, wall, crash, factory);
    ChargedIsFine(d.state, d.plant.world.config.tickSeconds);
  }

  lemma InstallIsTethered(fx: Fixture, d: Device, package: Package, leaseWall: real, recordWall: real,
                          factory: SlotRecord)
    requires Coherent(d) && Grounded(d.state, factory) && Tethered(d.state)
    requires Judge(fx, d, package).None? ==> d.state.active == d.state.lastKnownGood && package.leaseSeconds.Some?
    ensures Tethered(Install(fx, d, package, leaseWall, recordWall).state)
  {
  }

  // ----- The lease bound -----

  /** A tick in which the artifact installed at a sequence number gets to run its controller. */
  predicate StepsMorph(fx: Fixture, d: Device, h: Happening, sequence: int)
    requires fx.setup.Valid()
  {
    h.TickHappens?
    && var before := BeforeControl(fx, d, h.draw, h.wall);
       before.plant.sup.state.Normal? && before.state.Running().sequence == Some(sequence)
  }

  ghost function Stepping(fx: Fixture, sequence: int): (Device, Happening) -> bool
    requires fx.setup.Valid()
  {
    (d: Device, h: Happening) => StepsMorph(fx, d, h, sequence)
  }

  /** So many control steps, each charged one tick, fit into what is left of a lease. */
  predicate Fits(steps: nat, used: real, delta: real, duration: int) {
    steps == 0 || used + steps as real * delta < duration as real
  }

  /** Not running, and below the watermark: it will not run again. */
  predicate Gone(s: DeviceState, sequence: int) {
    s.Running().sequence != Some(sequence) && sequence <= s.watermark
  }

  lemma GoneTick(fx: Fixture, d: Device, draw: Draw, wall: real, crash: bool, factory: SlotRecord, sequence: int)
    requires fx.setup.Valid() && Coherent(d) && Grounded(d.state, factory)
    requires Gone(d.state, sequence) && sequence > 0
    ensures Gone(Tick(fx, d, draw, wall, crash).state, sequence)
    ensures BeforeControl(fx, d, draw, wall).state.Running().sequence != Some(sequence)
  {
    TickFate(fx, d, draw, wall, crash, factory);
    ChargedIsFine(d.state, d.plant.world.config.tickSeconds);
  }

  lemma GoneInstall(fx: Fixture, d: Device, package: Package, leaseWall: real, recordWall: real, sequence: int)
    requires Coherent(d) && Gone(d.state, sequence)
    ensures Gone(Install(fx, d, package, leaseWall, recordWall).state, sequence)
  {
    if Judge(fx, d, package).None? {
      assert package.sequence > d.state.watermark;
    }
  }

  lemma GoneStaysGone(fx: Fixture, d: Device, h: Happening, factory: SlotRecord, sequence: int)
    requires fx.setup.Valid() && Coherent(d) && Grounded(d.state, factory) && GuardedStep(fx, d, h)
    requires Gone(d.state, sequence) && sequence > 0
    ensures Gone(Do(fx, d, h).state, sequence) && !StepsMorph(fx, d, h, sequence)
  {
    match h
    case TickHappens(draw, wall, crash) => GoneTick(fx, d, draw, wall, crash, factory, sequence);
    case PackageArrives(package, leaseWall, recordWall) =>
      GoneInstall(fx, d, package, leaseWall, recordWall, sequence);
    case _ =>
  }

  /** The artifact of a sequence number is running on a lease of a given duration. */
  predicate OnLease(s: DeviceState, sequence: int, duration: int) {
    && s.Running().sequence == Some(sequence) && sequence <= s.watermark
    && s.Running().lease.Some? && s.Running().lease.value.duration == duration
  }

  /** How much of the running lease is used up. */
  function Used(s: DeviceState): real {
    if s.Running().lease.Some? then s.Running().lease.value.elapsed else 0.0
  }

  /** A step of a leased morph: it is gone, or it is charged for a tick that still fits into its lease. */
  lemma LeasedStep(fx: Fixture, d: Device, h: Happening, factory: SlotRecord, sequence: int, duration: int)
    requires fx.setup.Valid() && Coherent(d) && Grounded(d.state, factory) && GuardedStep(fx, d, h)
    requires OnLease(d.state, sequence, duration) && sequence > 0
    ensures var delta := d.plant.world.config.tickSeconds;
      var after := Do(fx, d, h).state;
      && (Gone(after, sequence)
          || (OnLease(after, sequence, duration) && Used(after) == Used(d.state) + (if h.TickHappens? then delta else 0.0)
              && (h.TickHappens? ==> Used(after) < duration as real)))
      && (StepsMorph(fx, d, h, sequence) ==> Used(d.state) + delta < duration as real)
  {
    match h
    case TickHappens(draw, wall, crash) =>
      LeasedTick(fx, d, draw, wall, crash, factory, sequence, duration);
    case PackageArrives(package, leaseWall, recordWall) =>
      if Judge(fx, d, package).None? {
        assert package.sequence > d.state.watermark;
      }
    case _ =>
  }

  lemma LeasedTick(fx: Fixture, d: Device, draw: Draw, wall: real, crash: bool, factory: SlotRecord, sequence: int,
                   duration: int)
    requires fx.setup.Valid() && Coherent(d) && Grounded(d.state, factory)
    requires OnLease(d.state, sequence, duration) && sequence > 0
    ensures var delta := d.plant.world.config.tickSeconds;
      var after := Tick(fx, d, draw, wall, crash).state;
      && (Gone(after, sequence)
          || (OnLease(after, sequence, duration) && Used(after) == Used(d.state) + delta < duration as real))
      && (BeforeControl(fx, d, draw, wall).state.Running().sequence == Some(sequence) ==>
            Used(d.state) + delta < duration as real)
  {
    TickFate(fx, d, draw, wall, crash, factory);
    TickIsCoherent(fx, d, draw, wall, crash);
    ChargedIsFine(d.state, d.plant.world.config.tickSeconds);
  }

  lemma StepKeepsWorld(fx: Fixture, d: Device, h: Happening)
    requires fx.setup.Valid() && Coherent(d)
    ensures Do(fx, d, h).plant.world.config == d.plant.world.config
  {
    if h.TickHappens? {
      TickIsCoherent(fx, d, h.draw, h.wall, h.crash);
    }
  }

  ghost predicate Standing(d: Device, factory: SlotRecord, delta: real) {
    Coherent(d) && Grounded(d.state, factory) && d.plant.world.config.tickSeconds == delta
  }

  ghost predicate Leased(d: Device, factory: SlotRecord, delta: real, sequence: int, duration: int) {
    Standing(d, factory, delta) && OnLease(d.state, sequence, duration)
  }

  ghost predicate Retired(d: Device, factory: SlotRecord, delta: real, sequence: int) {
    Standing(d, factory, delta) && Gone(d.state, sequence)
  }

  lemma StandingStep(fx: Fixture, d: Device, h: Happening, factory: SlotRecord, delta: real)
    requires fx.setup.Valid() && Standing(d, factory, delta) && GuardedStep(fx, d, h)
    ensures Standing(Do(fx, d, h), factory, delta)
  {
    StepIsGrounded(fx, d, h, factory);
    StepKeepsWorld(fx, d, h);
  }

  lemma RetiredStep(fx: Fixture, d: Device, h: Happening, factory: SlotRecord, delta: real, sequence: int)
    requires fx.setup.Valid() && Retired(d, factory, delta, sequence) && GuardedStep(fx, d, h) && sequence > 0
    ensures Retired(Do(fx, d, h), factory, delta, sequence) && !StepsMorph(fx, d, h, sequence)
  {
    StandingStep(fx, d, h, factory, delta);
    GoneStaysGone(fx, d, h, factory, sequence);
  }

  /** What a step makes of a leased morph: retired, or still leased with the step paid for. */
  ghost predicate LeaseHolds(d: Device, after: Device, stepped: bool, factory: SlotRecord, delta: real, sequence: int,
                             duration: int)
  {
    && (stepped ==> Used(d.state) + delta < duration as real)
    && (Retired(after, factory, delta, sequence)
        || (Leased(after, factory, delta, sequence, duration)
            && Used(after.state) >= Used(d.state) + if stepped then delta else 0.0))
  }

  lemma LiveStep(fx: Fixture, d: Device, h: Happening, factory: SlotRecord, delta: real, sequence: int, duration: int)
    requires fx.setup.Valid() && Leased(d, factory, delta, sequence, duration) && GuardedStep(fx, d, h)
    requires sequence > 0 && delta > 0.0
    ensures LeaseHolds(d, Do(fx, d, h), StepsMorph(fx, d, h, sequence), factory, delta, sequence, duration)
  {
    StandingStep(fx, d, h, factory, delta);
    LeasedStep(fx, d, h, factory, sequence, duration);
  }

  ghost predicate StaysRetired(step: (Device, Happening) -> Device, good: (Device, Happening) -> bool,
                               mark: (Device, Happening) -> bool, factory: SlotRecord, delta: real, sequence: int)
  {
    forall d, h {:trigger good(d, h)} :: Retired(d, factory, delta, sequence) && good(d, h) ==>
      Retired(step(d, h), factory, delta, sequence) && !mark(d, h)
  }

  ghost predicate PaysItsWay(step: (Device, Happening) -> Device, good: (Device, Happening) -> bool,
                             mark: (Device, Happening) -> bool, factory: SlotRecord, delta: real, sequence: int,
                             duration: int)
  {
    forall d, h {:trigger good(d, h)} :: Leased(d, factory, delta, sequence, duration) && good(d, h) ==>
      LeaseHolds(d, step(d, h), mark(d, h), factory, delta, sequence, duration)
  }

  lemma RetiredSteps(fx: Fixture, factory: SlotRecord, delta: real, sequence: int)
    requires fx.setup.Valid() && sequence > 0
    ensures StaysRetired(Doer(fx), Guarded(fx), Stepping(fx, sequence), factory, delta, sequence)
  {
    forall d, h {:trigger Guarded(fx)(d, h)} | Retired(d, factory, delta, sequence) && Guarded(fx)(d, h)
      ensures Retired(Doer(fx)(d, h), factory, delta, sequence) && !Stepping(fx, sequence)(d, h)
    {
      RetiredStep(fx, d, h, factory, delta, sequence);
    }
  }

  lemma LiveSteps(fx: Fixture, factory: SlotRecord, delta: real, sequence: int, duration: int)
    requires fx.setup.Valid() && sequence > 0 && delta > 0.0
    ensures PaysItsWay(Doer(fx), Guarded(fx), Stepping(fx, sequence), factory, delta, sequence, duration)
  {
    forall d, h {:trigger Guarded(fx)(d, h)} |
      Leased(d, factory, delta, sequence, duration) && Guarded(fx)(d, h)
      ensures LeaseHolds(d, Doer(fx)(d, h), Stepping(fx, sequence)(d, h), factory, delta, sequence, duration)
    {
      LiveStep(fx, d, h, factory, delta, sequence, duration);
    }
  }

  /** The argument itself, for any machine whose steps keep those two facts. */
  lemma {:induction false} StepsFitLease(step: (Device, Happening) -> Device, good: (Device, Happening) -> bool,
                                         mark: (Device, Happening) -> bool, d: Device, run: seq<Happening>,
                                         factory: SlotRecord, sequence: int, duration: int, delta: real)
    requires StaysRetired(step, good, mark, factory, delta, sequence)
    requires PaysItsWay(step, good, mark, factory, delta, sequence, duration)
    requires Leased(d, factory, delta, sequence, duration) && Throughout(step, good, d, run)
    ensures Fits(Marked(step, mark, d, run), Used(d.state), delta, duration)
  {
    MarksFit(step, good, mark, (e: Device) => Leased(e, factory, delta, sequence, duration),
             (e: Device) => Retired(e, factory, delta, sequence), (e: Device) => Used(e.state), delta,
             duration as real, d, run);
  }

  /** The lease bound: whatever the interleaving of ticks, crashes, restarts and guarded installs and
      whatever the wall clock says, a morph's control steps, each charged one tick, stay short of its
      lease. */
  lemma {:induction false} LeaseBoundsSteps(fx: Fixture, d: Device, run: seq<Happening>, factory: SlotRecord,
                                            sequence: int, duration: int, delta: real)
    requires fx.setup.Valid() && Leased(d, factory, delta, sequence, duration) && sequence > 0 && delta > 0.0
    requires Throughout(Doer(fx), Guarded(fx), d, run)
    ensures Fits(Marked(Doer(fx), Stepping(fx, sequence), d, run), Used(d.state), delta, duration)
  {
    RetiredSteps(fx, factory, delta, sequence);
    LiveSteps(fx, factory, delta, sequence, duration);
    StepsFitLease(Doer(fx), Guarded(fx), Stepping(fx, sequence), d, run, factory, sequence, duration, delta);
  }

  lemma StepsBelow(steps: nat, duration: int, delta: real)
    requires delta > 0.0 && duration > 0 && Fits(steps, 0.0, delta, duration)
    ensures steps <= Compiler.Ceiling(duration as real / delta) - 1
  {
    var q := duration as real / delta;
    assert q * delta == duration as real;
    Scale(q, steps as real, delta);
    assert q > 0.0;
  }

  /** From its installation on, a morph leased for D seconds takes at most ceil(D / dt) - 1 control
      steps, ever. */
  lemma {:induction false} MorphStepsAreBounded(fx: Fixture, d: Device, package: Package, leaseWall: real,
                                                recordWall: real, run: seq<Happening>, factory: SlotRecord)
    requires fx.setup.Valid() && Coherent(d) && Grounded(d.state, factory)
    requires Judge(fx, d, package).None? && d.state.active == d.state.lastKnownGood
    requires package.leaseSeconds.Some?
    requires Throughout(Doer(fx), Guarded(fx), Install(fx, d, package, leaseWall, recordWall), run)
    ensures Marked(Doer(fx), Stepping(fx, package.sequence), Install(fx, d, package, leaseWall, recordWall), run)
      <= Compiler.Ceiling(package.leaseSeconds.value as real / d.plant.world.config.tickSeconds) - 1
  {
    var start := Install(fx, d, package, leaseWall, recordWall);
    var delta, duration := d.plant.world.config.tickSeconds, package.leaseSeconds.value;
    InstalledOnLease(fx, d, package, leaseWall, recordWall, factory);
    LeaseBoundsSteps(fx, start, run, factory, package.sequence, duration, delta);
    StepsBelow(Marked(Doer(fx), Stepping(fx, package.sequence), start, run), duration, delta);
  }

  lemma InstalledOnLease(fx: Fixture, d: Device, package: Package, leaseWall: real, recordWall: real,
                         factory: SlotRecord)
    requires Coherent(d) && Grounded(d.state, factory)
    requires Judge(fx, d, package).None? && d.state.active == d.state.lastKnownGood
    requires package.leaseSeconds.Some?
    ensures var start := Install(fx, d, package, leaseWall, recordWall);
      && Leased(start, factory, d.plant.world.config.tickSeconds, package.sequence, package.leaseSeconds.value)
      && Used(start.state) == 0.0
      && package.sequence > 0 && package.leaseSeconds.value > 0
  {
    InstallIsCoherent(fx, d, package, leaseWall, recordWall);
    GuardedInstallIsGrounded(fx, d, package, leaseWall, recordWall, factory);
    assert package.sequence > d.state.watermark;
  }

  // ----- The lease runs out -----

  /** A guarded step that accepts no package. */
  ghost function Unattended(fx: Fixture): (Device, Happening) -> bool {
    (d: Device, h: Happening) => !h.ProvisionHappens? && (h.PackageArrives? ==> Judge(fx, d, h.package).Some?)
  }

  function Ticks(run: seq<Happening>): nat {
    Among((h: Happening) => h.TickHappens?, run)
  }

  /** Off the factory image, on a lease that still has time left. */
  predicate Away(s: DeviceState, duration: int) {
    && !s.RunningSlot().SlotA? && s.Running().lease.Some?
    && s.Running().lease.value.duration == duration && Used(s) < duration as real
  }

  lemma UnattendedStep(fx: Fixture, d: Device, h: Happening, factory: SlotRecord, duration: int)
    requires fx.setup.Valid() && Coherent(d) && Grounded(d.state, factory) && Unattended(fx)(d, h)
    ensures d.state.RunningSlot().SlotA? ==> Do(fx, d, h).state.RunningSlot().SlotA?
    ensures Away(d.state, duration) ==>
      var s := Do(fx, d, h).state;
      s.RunningSlot().SlotA? || (Away(s, duration)
        && Used(s) == Used(d.state) + if h.TickHappens? then d.plant.world.config.tickSeconds else 0.0)
  {
    if h.TickHappens? {
      TickFate(fx, d, h.draw, h.wall, h.crash, factory);
    }
  }

  ghost predicate Abroad(d: Device, factory: SlotRecord, delta: real, duration: int) {
    Standing(d, factory, delta) && Away(d.state, duration)
  }

  ghost predicate Home(d: Device, factory: SlotRecord, delta: real) {
    Standing(d, factory, delta) && d.state.RunningSlot().SlotA?
  }

  /** What a step makes of a device that is abroad: it comes home, or its lease is charged. */
  ghost predicate Nearer(d: Device, after: Device, ticked: bool, factory: SlotRecord, delta: real, duration: int) {
    Home(after, factory, delta)
    || (Abroad(after, factory, delta, duration)
        && Used(after.state) >= Used(d.state) + if ticked then delta else 0.0)
  }

  lemma HomeStep(fx: Fixture, d: Device, h: Happening, factory: SlotRecord, delta: real)
    requires fx.setup.Valid() && Unattended(fx)(d, h) && Home(d, factory, delta)
    ensures Home(Do(fx, d, h), factory, delta)
  {
    StandingStep(fx, d, h, factory, delta);
    UnattendedStep(fx, d, h, factory, 0);
  }

  lemma NearerStep(fx: Fixture, d: Device, h: Happening, factory: SlotRecord, delta: real, duration: int)
    requires fx.setup.Valid() && Unattended(fx)(d, h) && Abroad(d, factory, delta, duration)
    ensures Nearer(d, Do(fx, d, h), h.TickHappens?, factory, delta, duration)
  {
    StandingStep(fx, d, h, factory, delta);
    UnattendedStep(fx, d, h, factory, duration);
  }

  lemma HomeSteps(fx: Fixture, factory: SlotRecord, delta: real, duration: int)
    requires fx.setup.Valid()
    ensures forall d, h {:trigger Unattended(fx)(d, h)} :: Home(d, factory, delta) && Unattended(fx)(d, h) ==>
      Home(Doer(fx)(d, h), factory, delta)
    ensures forall d, h {:trigger Unattended(fx)(d, h)} ::
      Abroad(d, factory, delta, duration) && Unattended(fx)(d, h) ==>
        Nearer(d, Doer(fx)(d, h), h.TickHappens?, factory, delta, duration)
  {
    forall d, h {:trigger Unattended(fx)(d, h)} | Home(d, factory, delta) && Unattended(fx)(d, h)
      ensures Home(Doer(fx)(d, h), factory, delta)
    {
      HomeStep(fx, d, h, factory, delta);
    }
    forall d, h {:trigger Unattended(fx)(d, h)} | Abroad(d, factory, delta, duration) && Unattended(fx)(d, h)
      ensures Nearer(d, Doer(fx)(d, h), h.TickHappens?, factory, delta, duration)
    {
      NearerStep(fx, d, h, factory, delta, duration);
    }
  }

  lemma {:induction false} LeaseLeadsHome(step: (Device, Happening) -> Device, good: (Device, Happening) -> bool,
                                          d: Device, run: seq<Happening>, factory: SlotRecord, delta: real,
                                          duration: int)
    requires forall e, h {:trigger good(e, h)} :: Home(e, factory, delta) && good(e, h) ==>
      Home(step(e, h), factory, delta)
    requires forall e, h {:trigger good(e, h)} :: Abroad(e, factory, delta, duration) && good(e, h) ==>
      Nearer(e, step(e, h), h.TickHappens?, factory, delta, duration)
    requires Abroad(d, factory, delta, duration) && Throughout(step, good, d, run)
    requires Used(d.state) + Ticks(run) as real * delta >= duration as real
    ensures Home(Iterate(step, d, run), factory, delta)
  {
    ComesHome(step, good, (h: Happening) => h.TickHappens?, (e: Device) => Abroad(e, factory, delta, duration),
              (e: Device) => Home(e, factory, delta), (e: Device) => Used(e.state), delta, duration as real, d, run);
  }

  /** Left alone, a device is back on its factory image once enough ticks have passed to use up the
      lease: no clock reading, crash or restart puts it off. */
  lemma {:induction false} LeaseRunsOut(fx: Fixture, d: Device, run: seq<Happening>, factory: SlotRecord, delta: real,
                                        duration: int)
    requires fx.setup.Valid() && Abroad(d, factory, delta, duration)
    requires Throughout(Doer(fx), Unattended(fx), d, run)
    requires Used(d.state) + Ticks(run) as real * delta >= duration as real
    ensures var after := Iterate(Doer(fx), d, run);
      && Coherent(after) && after.state.Running() == factory
      && Some(after.controller.value.program) == factory.artifact
  {
    HomeSteps(fx, factory, delta, duration);
    LeaseLeadsHome(Doer(fx), Unattended(fx), d, run, factory, delta, duration);
  }

  // ----- Under guarded installs -----

  /** Leased, with time left. */
  ghost predicate Unspent(d: Device, factory: SlotRecord, delta: real, sequence: int, duration: int) {
    Leased(d, factory, delta, sequence, duration) && Used(d.state) < duration as real
  }

  /** What a guarded step makes of it: retired, or charged and still with time left. */
  ghost predicate WearsOut(d: Device, after: Device, ticked: bool, factory: SlotRecord, delta: real, sequence: int,
                           duration: int)
  {
    Retired(after, factory, delta, sequence)
    || (Unspent(after, factory, delta, sequence, duration)
        && Used(after.state) >= Used(d.state) + if ticked then delta else 0.0)
  }

  lemma WearingStep(fx: Fixture, d: Device, h: Happening, factory: SlotRecord, delta: real, sequence: int,
                    duration: int)
    requires fx.setup.Valid() && Unspent(d, factory, delta, sequence, duration) && GuardedStep(fx, d, h)
    requires sequence > 0
    ensures WearsOut(d, Do(fx, d, h), h.TickHappens?, factory, delta, sequence, duration)
  {
    StandingStep(fx, d, h, factory, delta);
    LeasedStep(fx, d, h, factory, sequence, duration);
  }

  ghost predicate AlwaysWears(step: (Device, Happening) -> Device, good: (Device, Happening) -> bool,
                              factory: SlotRecord, delta: real, sequence: int, duration: int)
  {
    && (forall d, h {:trigger good(d, h)} :: Retired(d, factory, delta, sequence) && good(d, h) ==>
          Retired(step(d, h), factory, delta, sequence))
    && (forall d, h {:trigger good(d, h)} :: Unspent(d, factory, delta, sequence, duration) && good(d, h) ==>
          WearsOut(d, step(d, h), h.TickHappens?, factory, delta, sequence, duration))
  }

  lemma DeviceWears(fx: Fixture, factory: SlotRecord, delta: real, sequence: int, duration: int)
    requires fx.setup.Valid() && sequence > 0
    ensures AlwaysWears(Doer(fx), Guarded(fx), factory, delta, sequence, duration)
  {
    forall d, h {:trigger Guarded(fx)(d, h)} | Retired(d, factory, delta, sequence) && Guarded(fx)(d, h)
      ensures Retired(Doer(fx)(d, h), factory, delta, sequence)
    {
      RetiredStep(fx, d, h, factory, delta, sequence);
    }
    forall d, h {:trigger Guarded(fx)(d, h)} |
      Unspent(d, factory, delta, sequence, duration) && Guarded(fx)(d, h)
      ensures WearsOut(d, Doer(fx)(d, h), h.TickHappens?, factory, delta, sequence, duration)
    {
      WearingStep(fx, d, h, factory, delta, sequence, duration);
    }
  }

  lemma {:induction false} WearsAway(step: (Device, Happening) -> Device, good: (Device, Happening) -> bool, d: Device,
                                     run: seq<Happening>, factory: SlotRecord, delta: real, sequence: int,
                                     duration: int)
    requires AlwaysWears(step, good, factory, delta, sequence, duration)
    requires Unspent(d, factory, delta, sequence, duration) && Throughout(step, good, d, run)
    requires Used(d.state) + Ticks(run) as real * delta >= duration as real
    ensures Retired(Iterate(step, d, run), factory, delta, sequence)
  {
    ComesHome(step, good, (h: Happening) => h.TickHappens?,
              (e: Device) => Unspent(e, factory, delta, sequence, duration),
              (e: Device) => Retired(e, factory, delta, sequence), (e: Device) => Used(e.state), delta,
              duration as real, d, run);
  }

  /** The same with packages arriving: once the ticks add up to its lease a morph is retired for good,
      whatever guarded installs took place meanwhile. */
  lemma {:induction false} MorphRetires(fx: Fixture, d: Device, run: seq<Happening>, factory: SlotRecord, delta: real,
                                        sequence: int, duration: int)
    requires fx.setup.Valid() && Unspent(d, factory, delta, sequence, duration) && sequence > 0
    requires Throughout(Doer(fx), Guarded(fx), d, run)
    requires Used(d.state) + Ticks(run) as real * delta >= duration as real
    ensures Retired(Iterate(Doer(fx), d, run), factory, delta, sequence)
  {
    DeviceWears(fx, factory, delta, sequence, duration);
    WearsAway(Doer(fx), Guarded(fx), d, run, factory, delta, sequence, duration);
  }
}
