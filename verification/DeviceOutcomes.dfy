/** What each event makes of a device, in terms of its slots, its lease and what it runs: installation,
    every way a tick can end, the end of a lease to the second, and how a candidate earns its place. */
module DeviceOutcomes {
  import opened Names
  import opened Arithmetic
  import opened Programs
  import opened Worlds
  import opened Supervisors
  import opened SupervisorProofs
  import opened Runtime
  import opened Harness
  import opened Slots
  import opened Packages
  import opened Devices
  import opened DeviceSlots
  import opened DeviceRuns
  import opened Runs
  import DeviceLeases

  function Other(n: SlotName): SlotName { if n.SlotA? then SlotB else SlotA }

  /** Running a program from a clean start at the world's present time, and allowed exactly what it uses. */
  predicate Freshly(d: Device, program: Program) {
    && d.saved == d.state && d.controller.Some?
    && d.controller == Some(Controller(program, Some(d.plant.world.time), 0, 0.0, 0, false,
                                       d.controller.value.commanded, map[]))
    && d.plant.sup.allowed == program.CapabilitiesUsed()
    && d.plant.sup.state.Normal? && d.plant.sup.sinceHeartbeat == 0
  }

  // ----- Provisioning, installation, restart -----

  /** A refused package changes nothing. An accepted one takes the slot that is not active, on a lease for
      what the package says that begins with the clock reading, and runs from a clean start on probation;
      the other slot and the fall-back stay as they are. */
  lemma InstallMeans(fx: Fixture, d: Device, package: Package, leaseWall: real, recordWall: real)
    requires fx.setup.Valid()
    ensures var after, target := Do(fx, d, PackageArrives(package, leaseWall, recordWall)), Other(d.state.active);
      if Judge(fx, d, package).Some? then after == d
      else
        && after.state.Running() == after.state.Slot(target)
        && after.state.Slot(target) == SlotRecord(
             Some(package.artifact), Some(package.artifactHash), Some(package.sequence), Some(recordWall),
             if package.leaseSeconds.Some? then Some(Lease(package.leaseSeconds.value, 0.0, leaseWall)) else None)
        && after.state.Slot(Other(target)) == d.state.Slot(Other(target))
        && after.state.active == d.state.active && after.state.lastKnownGood == d.state.lastKnownGood
        && after.state.candidate == Some(target) && after.state.status.Probation? && after.state.probationLeft == 5
        && after.state.watermark == package.sequence && after.state.failures == d.state.failures
        && after.plant.world == d.plant.world && Freshly(after, package.artifact)
        && after.controller.value.commanded == d.plant.world.actuators
  {
  }

  /** The factory image: slot A, sequence number zero, no lease, active and last-known-good at once. */
  lemma ProvisionMeans(fx: Fixture, d: Device, program: Program, wall: real)
    requires fx.setup.Valid()
    ensures var after := Do(fx, d, ProvisionHappens(program, wall));
      && after.state == d.state.(a := SlotRecord(Some(program), Some(fx.crypto.artifactHash(program)), Some(0),
                                                 Some(wall), None),
                                 active := SlotA, lastKnownGood := SlotA, candidate := None, status := NoCandidate,
                                 failures := 0)
      && after.state.Running().artifact == Some(program)
      && after.plant.world == d.plant.world && Freshly(after, program)
      && after.controller.value.commanded == d.plant.world.actuators
  {
  }

  /** A restart forgets the supervisor and the controller and nothing else: the same slots, the same lease
      with what it has used, the same artifact from a clean start. */
  lemma RestartMeans(fx: Fixture, d: Device)
    requires fx.setup.Valid() && Coherent(d)
    ensures var after := Do(fx, d, RestartHappens);
      && after.state == d.state && after.plant.world == d.plant.world
      && Freshly(after, d.controller.value.program) && after.controller.value.commanded == d.plant.world.actuators
      && after.plant.sup.log == [] && !after.plant.sup.emergency && after.plant.sup.emergencyActivations == 0
  {
  }

  // ----- Lease over or not -----

  /** By the end of this tick one of the two clocks will have used the running lease up. */
  predicate LeaseSpent(s: DeviceState, dt: real, wall: real) {
    s.Running().lease.Some? &&
    var l := s.Running().lease.value;
    l.elapsed + dt >= l.duration as real || wall - l.installedAtWall >= l.duration as real || l.duration <= 0
  }

  /** A slot's record once the running lease has been charged for one tick. */
  function Aged(s: DeviceState, dt: real, n: SlotName): SlotRecord {
    if n == s.RunningSlot() && s.Slot(n).lease.Some?
    then s.Slot(n).(lease := Some(s.Slot(n).lease.value.(elapsed := s.Slot(n).lease.value.elapsed + dt)))
    else s.Slot(n)
  }

  /** Both slots have been charged and nothing else has changed of them. */
  predicate ChargedOnce(s: DeviceState, t: DeviceState, dt: real) {
    t.a == Aged(s, dt, SlotA) && t.b == Aged(s, dt, SlotB) && t.watermark == s.watermark
  }

  /** The control phase that the harness loop would go through from here. */
  function PhaseOf(fx: Fixture, d: Device, draw: Draw, crash: bool): Phase
    requires fx.setup.Valid() && d.controller.Some?
  {
    LoopPhase(fx.setup, RigOf(d), draw, crash)
  }

  lemma UnspentIsCharged(fx: Fixture, d: Device, draw: Draw, wall: real)
    requires fx.setup.Valid() && Coherent(d) && !LeaseSpent(d.state, d.plant.world.config.tickSeconds, wall)
    ensures var before, charged := BeforeControl(fx, d, draw, wall), Charged(d.state, d.plant.world.config.tickSeconds);
      before == Device(PolicyPhase(fx.setup, d.plant, draw), d.controller, charged, charged)
    ensures ChargedOnce(d.state, Charged(d.state, d.plant.world.config.tickSeconds), d.plant.world.config.tickSeconds)
    ensures Charged(d.state, d.plant.world.config.tickSeconds)
         == d.state.(a := Aged(d.state, d.plant.world.config.tickSeconds, SlotA),
                     b := Aged(d.state, d.plant.world.config.tickSeconds, SlotB))
  {
    PolicyFrame(fx.setup, d.plant, draw);
  }

  // ----- Every way a tick can end -----

  /** Back on last-known-good: it is active, it runs from a clean start under a normal supervisor, no
      candidate is left, and the lease of the slot that was left is gone. */
  predicate Home(s: DeviceState, after: Device, outgoing: SlotName) {
    var t, good := after.state, s.lastKnownGood;
    && t.lastKnownGood == good && t.active == good && t.candidate.None? && t.RunningSlot() == good
    && t.Slot(outgoing) == s.Slot(outgoing).(lease := None) && t.Slot(Other(outgoing)) == s.Slot(Other(outgoing))
    && t.watermark == s.watermark && t.probationLeft == s.probationLeft
    && s.Slot(good).artifact.Some? && Freshly(after, s.Slot(good).artifact.value)
  }

  lemma RevertGoesHome(fx: Fixture, d: Device)
    requires fx.setup.Valid()
    requires StateFine(d.state.(status := if d.state.status.Probation? then Slots.Failed else d.state.status))
    ensures var after := RevertLocal(fx, d);
      && Home(d.state, after, d.state.RunningSlot())
      && after.state.status == (if d.state.status.Probation? then Slots.Failed else d.state.status)
      && after.state.failures == d.state.failures
  {
    var program := d.state.Slot(d.state.lastKnownGood).artifact.value;
    RevertOutcome(fx, d);
    var started := Start(RunFallback(fx, d).(state := Reverted(d.state)), program);
    ManageUnownedFrame(fx.setup, started.plant, MetricsOf(started.plant.world), started.plant.world.time);
  }

  /** How a tick can end while the lease holds. */
  datatype Ending = CandidateFailed | LimitReached | LeftInSafeState | StillOnProbation | Promoted | Unremarkable

  function EndingOf(s: DeviceState, faulted: bool, normal: bool): Ending {
    if s.status.Probation? && (faulted || !normal) then CandidateFailed
    else if faulted && s.failures >= 2 then LimitReached
    else if faulted then LeftInSafeState
    else if s.status.Probation? && s.probationLeft > 1 then StillOnProbation
    else if s.status.Probation? then Ending.Promoted
    else Unremarkable
  }

  /** What each ending leaves of the device. `s` has been charged; `phase` is how control went. */
  predicate EndsAs(ending: Ending, s: DeviceState, phase: Phase, after: Device) {
    var counted := s.(failures := s.failures + if phase.faulted then 1 else 0);
    match ending
    case CandidateFailed =>
      && Home(s, after, s.active) && after.state.status == Slots.Failed && after.state.failures == counted.failures
    case LimitReached =>
      && Home(s, after, s.active) && after.state.status == s.status && after.state.failures == counted.failures
    case LeftInSafeState =>
      && after == Device(phase.plant, Some(phase.controller), counted, counted)
      && after.plant.sup.state.SafeState?
    case StillOnProbation =>
      var t := s.(probationLeft := s.probationLeft - 1);
      after == Device(phase.plant, Some(phase.controller), t, t)
    case Promoted =>
      var t := s.(probationLeft := s.probationLeft - 1, status := Activated, lastKnownGood := s.active,
                  active := Other(s.active), failures := 0);
      after == Device(phase.plant, Some(phase.controller), t, t)
    case Unremarkable => after == Device(phase.plant, Some(phase.controller), s, s)
  }

  lemma FaultEnds(fx: Fixture, d: Device, phase: Phase)
    requires fx.setup.Valid() && Coherent(d) && phase.faulted && phase.plant.sup.state.SafeState?
    requires d.plant == phase.plant && d.controller == Some(phase.controller)
    ensures EndsAs(EndingOf(d.state, true, false), d.state, phase, HandleFault(fx, d))
  {
    if d.state.status.Probation? {
      CandidateFaultEnds(fx, d, phase);
    } else {
      EstablishedFaultEnds(fx, d, phase);
    }
  }

  lemma CandidateFaultEnds(fx: Fixture, d: Device, phase: Phase)
    requires fx.setup.Valid() && Coherent(d) && phase.faulted && d.state.status.Probation?
    ensures EndsAs(CandidateFailed, d.state, phase, HandleFault(fx, d))
  {
    RevertGoesHome(fx, Save(d.(state := d.state.(failures := d.state.failures + 1, status := Slots.Failed))));
  }

  lemma EstablishedFaultEnds(fx: Fixture, d: Device, phase: Phase)
    requires fx.setup.Valid() && Coherent(d) && phase.faulted && phase.plant.sup.state.SafeState?
    requires d.plant == phase.plant && d.controller == Some(phase.controller) && !d.state.status.Probation?
    ensures EndsAs(EndingOf(d.state, true, false), d.state, phase, HandleFault(fx, d))
  {
    if d.state.failures >= 2 {
      RevertGoesHome(fx, Save(d.(state := d.state.(failures := d.state.failures + 1))));
    }
  }

  lemma ScoreEnds(fx: Fixture, d: Device, phase: Phase)
    requires fx.setup.Valid() && Coherent(d) && !phase.faulted
    requires d.plant == phase.plant && d.controller == Some(phase.controller)
    ensures EndsAs(EndingOf(d.state, false, phase.plant.sup.state.Normal?), d.state, phase, ScoreProbation(fx, d))
  {
    if d.state.status.Probation? && !phase.plant.sup.state.Normal? {
      RevertGoesHome(fx, Save(d.(state := d.state.(status := Slots.Failed))));
    }
  }

  lemma SteppedIsCoherent(fx: Fixture, d: Device, draw: Draw, wall: real, crash: bool)
    requires fx.setup.Valid() && Coherent(d) && !LeaseSpent(d.state, d.plant.world.config.tickSeconds, wall)
    ensures var charged := Charged(d.state, d.plant.world.config.tickSeconds);
      var phase := PhaseOf(fx, d, draw, crash);
      var stepped := Device(phase.plant, Some(phase.controller), charged, charged);
      && Coherent(stepped) && (phase.faulted ==> phase.plant.sup.state.SafeState?)
      && Control(fx, BeforeControl(fx, d, draw, wall), crash) == (stepped, phase.faulted)
  {
    var before := BeforeControl(fx, d, draw, wall);
    UnspentIsCharged(fx, d, draw, wall);
    TickIsCoherent(fx, d, draw, wall, crash);
    ControlIsCoherent(fx, before, crash);
    ControlFrame(fx.setup, before.plant, before.controller.value, crash);
  }

  /** While the lease holds a tick ends in one of six ways, told apart by the status of the candidate, by
      whether control faulted and by the state it left the supervisor in. A candidate fails on its first
      fault and on the first tick that ends in safe state, an established artifact on the third fault. */
  lemma HowATickEnds(fx: Fixture, d: Device, draw: Draw, wall: real, crash: bool)
    requires fx.setup.Valid() && Coherent(d) && !LeaseSpent(d.state, d.plant.world.config.tickSeconds, wall)
    ensures var dt, phase := d.plant.world.config.tickSeconds, PhaseOf(fx, d, draw, crash);
      var s := d.state.(a := Aged(d.state, dt, SlotA), b := Aged(d.state, dt, SlotB));
      EndsAs(EndingOf(d.state, phase.faulted, phase.plant.sup.state.Normal?), s, phase,
             Do(fx, d, TickHappens(draw, wall, crash)))
  {
    var phase := PhaseOf(fx, d, draw, crash);
    var charged := Charged(d.state, d.plant.world.config.tickSeconds);
    var stepped := Device(phase.plant, Some(phase.controller), charged, charged);
    UnspentIsCharged(fx, d, draw, wall);
    SteppedIsCoherent(fx, d, draw, wall, crash);
    if phase.faulted {
      FaultEnds(fx, stepped, phase);
    } else {
      ScoreEnds(fx, stepped, phase);
    }
  }

  /** In particular, whatever faults or leaves the supervisor in safe state on probation has failed by the end
      of that very tick, and last-known-good is running under a normal supervisor. */
  lemma AnUnhealthyCandidateFails(fx: Fixture, d: Device, draw: Draw, wall: real, crash: bool)
    requires fx.setup.Valid() && Coherent(d) && d.state.status.Probation?
    requires !LeaseSpent(d.state, d.plant.world.config.tickSeconds, wall)
    requires var phase := PhaseOf(fx, d, draw, crash); phase.faulted || phase.plant.sup.state.SafeState?
    ensures var after := Do(fx, d, TickHappens(draw, wall, crash));
      && after.state.status == Slots.Failed && after.state.candidate.None?
      && after.state.RunningSlot() == d.state.lastKnownGood && after.controller.Some?
      && Some(after.controller.value.program) == d.state.Slot(d.state.lastKnownGood).artifact
      && after.plant.sup.state.Normal?
  {
    HowATickEnds(fx, d, draw, wall, crash);
  }

  // ----- The tick on which the lease ends -----

  /** A slot with its lease as it was, or gone. */
  predicate LeaseKeptOrGone(before: SlotRecord, after: SlotRecord) {
    after == before || after == before.(lease := None)
  }

  /** Sent home by its lease: whatever control then made of the tick, last-known-good is active and runs,
      and the lease of the slot that was left is gone. */
  predicate SentHome(s: DeviceState, after: Device) {
    var t, good, outgoing := after.state, s.lastKnownGood, s.RunningSlot();
    && t.lastKnownGood == good && t.active == good && t.candidate.None? && t.RunningSlot() == good
    && t.status == (if s.status.Probation? then Slots.Failed else s.status)
    && t.watermark == s.watermark && after.saved == t
    && t.Slot(outgoing) == s.Slot(outgoing).(lease := None)
    && LeaseKeptOrGone(s.Slot(Other(outgoing)), t.Slot(Other(outgoing)))
    && after.controller.Some? && Some(after.controller.value.program) == s.Slot(good).artifact
  }

  lemma SpentIsReverted(fx: Fixture, d: Device, draw: Draw, wall: real)
    requires fx.setup.Valid() && Coherent(d) && LeaseSpent(d.state, d.plant.world.config.tickSeconds, wall)
    ensures SentHome(d.state, BeforeControl(fx, d, draw, wall))
    ensures BeforeControl(fx, d, draw, wall).state.failures == d.state.failures
    ensures BeforeControl(fx, d, draw, wall).state.Slot(Other(d.state.RunningSlot()))
         == d.state.Slot(Other(d.state.RunningSlot()))
  {
    var policed := d.(plant := PolicyPhase(fx.setup, d.plant, draw));
    var charged := policed.(state := Charged(d.state, d.plant.world.config.tickSeconds));
    PolicyFrame(fx.setup, d.plant, draw);
    ChargedIsFine(d.state, d.plant.world.config.tickSeconds);
    RevertGoesHome(fx, charged);
    HomeIsSentHome(d.state, charged.state, RevertLocal(fx, charged));
  }

  /** Going home from slots that differ in the charge of the running lease only. */
  lemma HomeIsSentHome(s: DeviceState, c: DeviceState, after: Device)
    requires StateFine(s) && c == s.(a := c.a, b := c.b) && c.RunningSlot() == s.RunningSlot()
    requires c.Running() == s.Running().(lease := c.Running().lease)
    requires c.Slot(Other(s.RunningSlot())) == s.Slot(Other(s.RunningSlot()))
    requires Home(c, after, c.RunningSlot())
    requires after.state.status == (if c.status.Probation? then Slots.Failed else c.status)
    ensures SentHome(s, after)
  {
  }

  lemma HomeBookkeeping(fx: Fixture, s: DeviceState, d: Device, phase: Phase)
    requires fx.setup.Valid() && Coherent(d) && SentHome(s, d)
    requires d.plant == phase.plant && d.controller == Some(phase.controller)
    requires phase.faulted ==> phase.plant.sup.state.SafeState?
    ensures SentHome(s, if phase.faulted then HandleFault(fx, d) else ScoreProbation(fx, d))
  {
    if phase.faulted {
      FaultEnds(fx, d, phase);
    } else {
      ScoreEnds(fx, d, phase);
    }
  }

  /** On the tick that uses the lease up, by either clock, the artifact is sent home. */
  lemma SpentLeaseEndsIt(fx: Fixture, d: Device, draw: Draw, wall: real, crash: bool)
    requires fx.setup.Valid() && Coherent(d) && LeaseSpent(d.state, d.plant.world.config.tickSeconds, wall)
    ensures SentHome(d.state, Do(fx, d, TickHappens(draw, wall, crash)))
  {
    var before := BeforeControl(fx, d, draw, wall);
    SpentIsReverted(fx, d, draw, wall);
    TickIsCoherent(fx, d, draw, wall, crash);
    ControlIsCoherent(fx, before, crash);
    ControlFrame(fx.setup, before.plant, before.controller.value, crash);
    HomeBookkeeping(fx, d.state, Control(fx, before, crash).0,
                    ControlPhase(fx.setup, before.plant, before.controller.value, crash));
  }

  // ----- A candidate earns its place -----

  /** A tick within the lease that neither faults nor leaves the supervisor in safe state. */
  predicate Healthy(fx: Fixture, d: Device, h: Happening)
    requires fx.setup.Valid()
  {
    && h.TickHappens? && d.controller.Some?
    && !LeaseSpent(d.state, d.plant.world.config.tickSeconds, h.wall)
    && var phase := PhaseOf(fx, d, h.draw, h.crash); !phase.faulted && phase.plant.sup.state.Normal?
  }

  /** If this event activates a candidate, it is a healthy tick and the last one that was missing, and the
      candidate takes the place of what was active. */
  predicate ActivatesOnlyTheHealthy(fx: Fixture, d: Device, h: Happening)
    requires fx.setup.Valid()
  {
    var t := Do(fx, d, h).state;
    t.status.Activated? && !d.state.status.Activated? ==>
      && Healthy(fx, d, h) && d.state.status.Probation? && d.state.probationLeft <= 1
      && Some(t.active) == d.state.candidate && t.lastKnownGood == d.state.active
  }

  ghost function Earned(fx: Fixture): (Device, Happening) -> bool
    requires fx.setup.Valid()
  {
    (d: Device, h: Happening) => ActivatesOnlyTheHealthy(fx, d, h)
  }

  lemma OneEarned(fx: Fixture, d: Device, h: Happening)
    requires fx.setup.Valid() && Coherent(d)
    ensures ActivatesOnlyTheHealthy(fx, d, h)
  {
    match h
    case TickHappens(draw, wall, crash) =>
      if LeaseSpent(d.state, d.plant.world.config.tickSeconds, wall) {
        SpentLeaseEndsIt(fx, d, draw, wall, crash);
      } else {
        HowATickEnds(fx, d, draw, wall, crash);
      }
    case PackageArrives(package, leaseWall, recordWall) => InstallMeans(fx, d, package, leaseWall, recordWall);
    case RestartHappens => RestartMeans(fx, d);
    case ProvisionHappens(program, wall) => ProvisionMeans(fx, d, program, wall);
  }

  /** In every run from provisioning on, every activation is earned. */
  lemma {:induction false} ActivationIsAlwaysEarned(fx: Fixture, world: World, program: Program, wall: real,
                                                    run: seq<Happening>)
    requires fx.setup.Valid() && world.config.tickSeconds > 0.0
    ensures Throughout(Doer(fx), Earned(fx), Provision(fx, Boot(world, BLANK), program, wall), run)
  {
    var start := Provision(fx, Boot(world, BLANK), program, wall);
    forall d, h {:trigger Anything()(d, h)} | Coherent(d) && Anything()(d, h)
      ensures Coherent(Doer(fx)(d, h)) && Earned(fx)(d, h)
    {
      HappeningIsCoherent(fx, d, h);
      OneEarned(fx, d, h);
    }
    AlwaysCoherent(fx, world, program, wall, []);
    AnythingGoes(fx, start, run);
    Carry(Doer(fx), Coherent, Anything(), Earned(fx), start, run);
  }

  /** No package is accepted and nothing is provisioned. */
  predicate NoNewcomer(fx: Fixture, d: Device, h: Happening) {
    !h.ProvisionHappens? && (h.PackageArrives? ==> Judge(fx, d, h.package).Some?)
  }

  ghost function Alone(fx: Fixture): (Device, Happening) -> bool {
    (d: Device, h: Happening) => NoNewcomer(fx, d, h)
  }

  /** The healthy ticks of a run. */
  function HealthyTicks(fx: Fixture, d: Device, run: seq<Happening>): nat
    requires fx.setup.Valid()
    decreases |run|
  {
    if run == [] then 0
    else (if Healthy(fx, d, run[0]) then 1 else 0) + HealthyTicks(fx, Do(fx, d, run[0]), run[1..])
  }

  /** One event in the life of a candidate: a healthy tick brings it one nearer to its place, an unhealthy
      one ends it, nothing else matters to it. */
  lemma ProbationStep(fx: Fixture, d: Device, h: Happening)
    requires fx.setup.Valid() && Coherent(d) && d.state.status.Probation? && NoNewcomer(fx, d, h)
    requires d.state.probationLeft >= 1
    ensures var t := Do(fx, d, h).state;
      if Healthy(fx, d, h) then
        if d.state.probationLeft == 1 then t.status.Activated?
        else t.status.Probation? && t.probationLeft == d.state.probationLeft - 1
      else if h.TickHappens? then t.status == Slots.Failed && t.candidate.None?
      else t == d.state
  {
    match h
    case TickHappens(draw, wall, crash) =>
      if LeaseSpent(d.state, d.plant.world.config.tickSeconds, wall) {
        SpentLeaseEndsIt(fx, d, draw, wall, crash);
      } else {
        HowATickEnds(fx, d, draw, wall, crash);
      }
    case PackageArrives(package, leaseWall, recordWall) => InstallMeans(fx, d, package, leaseWall, recordWall);
    case RestartHappens => RestartMeans(fx, d);
    case _ =>
  }

  lemma SettledStep(fx: Fixture, d: Device, h: Happening)
    requires fx.setup.Valid() && Coherent(d) && !d.state.status.Probation? && NoNewcomer(fx, d, h)
    ensures Do(fx, d, h).state.status == d.state.status
  {
    match h
    case TickHappens(draw, wall, crash) =>
      if LeaseSpent(d.state, d.plant.world.config.tickSeconds, wall) {
        SpentLeaseEndsIt(fx, d, draw, wall, crash);
      } else {
        HowATickEnds(fx, d, draw, wall, crash);
      }
    case PackageArrives(package, leaseWall, recordWall) => InstallMeans(fx, d, package, leaseWall, recordWall);
    case RestartHappens => RestartMeans(fx, d);
    case _ =>
  }

  lemma {:induction false} SettledStays(fx: Fixture, d: Device, run: seq<Happening>)
    requires fx.setup.Valid() && Coherent(d) && !d.state.status.Probation?
    requires Throughout(Doer(fx), Alone(fx), d, run)
    ensures Iterate(Doer(fx), d, run).state.status == d.state.status
    decreases |run|
  {
    if run != [] {
      HappeningIsCoherent(fx, d, run[0]);
      SettledStep(fx, d, run[0]);
      SettledStays(fx, Do(fx, d, run[0]), run[1..]);
    }
  }

  /** Through any run without newcomers, restarts included: a candidate that is still on probation has as
      many healthy ticks fewer to go as it has had, one that has been activated has had them all, and the
      only other end is failure, which is final. */
  lemma {:induction false} PromotionTakesItsTime(fx: Fixture, d: Device, run: seq<Happening>)
    requires fx.setup.Valid() && Coherent(d) && d.state.status.Probation? && d.state.probationLeft >= 1
    requires Throughout(Doer(fx), Alone(fx), d, run)
    ensures var t, healthy := Iterate(Doer(fx), d, run).state, HealthyTicks(fx, d, run);
      && (t.status.Probation? ==> 1 <= t.probationLeft == d.state.probationLeft - healthy)
      && (t.status.Activated? ==> healthy >= d.state.probationLeft)
      && !t.status.NoCandidate?
    decreases |run|
  {
    if run != [] {
      var next := Do(fx, d, run[0]);
      HappeningIsCoherent(fx, d, run[0]);
      ProbationStep(fx, d, run[0]);
      if next.state.status.Probation? {
        PromotionTakesItsTime(fx, next, run[1..]);
      } else {
        SettledStays(fx, next, run[1..]);
      }
    }
  }

  // ----- A lease lasts exactly as long as it says -----

  /** No newcomer, and no failure that would send home the artifact of a sequence number before its time. */
  predicate Untroubled(fx: Fixture, d: Device, h: Happening, sequence: int)
    requires fx.setup.Valid()
  {
    && NoNewcomer(fx, d, h)
    && (h.TickHappens? && d.state.Running().sequence == Some(sequence) && d.controller.Some? ==>
          var phase := PhaseOf(fx, d, h.draw, h.crash);
          EndingOf(d.state, phase.faulted, phase.plant.sup.state.Normal?) !in {CandidateFailed, LimitReached})
  }

  ghost function Undisturbed(fx: Fixture, sequence: int): (Device, Happening) -> bool
    requires fx.setup.Valid()
  {
    (d: Device, h: Happening) => Untroubled(fx, d, h, sequence)
  }

  /** Running on a lease, over something else to fall back to. */
  predicate Alive(s: DeviceState, l: Lease, sequence: int) {
    && s.Running().lease == Some(l) && s.Running().sequence == Some(sequence)
    && s.Slot(s.lastKnownGood).sequence != Some(sequence)
    && (s.status.Probation? ==> s.active == s.lastKnownGood)
  }

  /** Back on something else. */
  predicate Over(s: DeviceState, sequence: int) {
    s.active == s.lastKnownGood && !s.status.Probation? && s.Running().sequence != Some(sequence)
  }

  lemma AliveTick(fx: Fixture, d: Device, h: Happening, l: Lease, sequence: int)
    requires fx.setup.Valid() && Coherent(d) && h.TickHappens? && Untroubled(fx, d, h, sequence)
    requires Alive(d.state, l, sequence)
    ensures AliveOrOver(Do(fx, d, h), LeaseSpent(d.state, d.plant.world.config.tickSeconds, h.wall),
                        l.(elapsed := l.elapsed + d.plant.world.config.tickSeconds), sequence,
                        d.controller.value.program)
  {
    if LeaseSpent(d.state, d.plant.world.config.tickSeconds, h.wall) {
      SpentLeaseEndsIt(fx, d, h.draw, h.wall, h.crash);
      SentHomeIsOver(d.state, Do(fx, d, h), l, sequence);
    } else {
      AliveHolds(fx, d, h, l, sequence);
    }
  }

  predicate AliveOrOver(after: Device, over: bool, l: Lease, sequence: int, program: Program) {
    if over then Over(after.state, sequence)
    else Alive(after.state, l, sequence) && after.controller.Some? && after.controller.value.program == program
  }

  lemma SentHomeIsOver(s: DeviceState, after: Device, l: Lease, sequence: int)
    requires StateFine(s) && SentHome(s, after) && Alive(s, l, sequence)
    ensures Over(after.state, sequence)
  {
  }

  lemma EndsAlive(ending: Ending, s: DeviceState, phase: Phase, after: Device, l: Lease, sequence: int)
    requires StateFine(s) && EndsAs(ending, s, phase, after) && Alive(s, l, sequence)
    requires ending == EndingOf(s, phase.faulted, phase.plant.sup.state.Normal?)
    requires ending !in {CandidateFailed, LimitReached}
    ensures Alive(after.state, l, sequence) && after.controller == Some(phase.controller)
  {
  }

  lemma AliveHolds(fx: Fixture, d: Device, h: Happening, l: Lease, sequence: int)
    requires fx.setup.Valid() && Coherent(d) && h.TickHappens? && Untroubled(fx, d, h, sequence)
    requires Alive(d.state, l, sequence) && !LeaseSpent(d.state, d.plant.world.config.tickSeconds, h.wall)
    ensures AliveOrOver(Do(fx, d, h), false, l.(elapsed := l.elapsed + d.plant.world.config.tickSeconds), sequence,
                        d.controller.value.program)
  {
    var dt := d.plant.world.config.tickSeconds;
    var s := d.state.(a := Aged(d.state, dt, SlotA), b := Aged(d.state, dt, SlotB));
    AgedIsAlive(d.state, s, dt, l, sequence);
    AliveEnds(fx, d, h, s, l.(elapsed := l.elapsed + dt), sequence);
  }

  lemma AgedIsAlive(s: DeviceState, t: DeviceState, dt: real, l: Lease, sequence: int)
    requires StateFine(s) && Alive(s, l, sequence) && dt > 0.0
    requires t == s.(a := Aged(s, dt, SlotA), b := Aged(s, dt, SlotB))
    ensures StateFine(t) && Alive(t, l.(elapsed := l.elapsed + dt), sequence)
    ensures forall faulted, normal :: EndingOf(t, faulted, normal) == EndingOf(s, faulted, normal)
  {
  }

  lemma PhaseKeepsProgram(fx: Fixture, d: Device, draw: Draw, crash: bool)
    requires fx.setup.Valid() && d.controller.Some?
    ensures PhaseOf(fx, d, draw, crash).controller.program == d.controller.value.program
  {
    ControlFrame(fx.setup, PolicyPhase(fx.setup, d.plant, draw), d.controller.value, crash);
  }

  lemma AliveEnds(fx: Fixture, d: Device, h: Happening, s: DeviceState, l: Lease, sequence: int)
    requires fx.setup.Valid() && Coherent(d) && h.TickHappens? && Untroubled(fx, d, h, sequence)
    requires !LeaseSpent(d.state, d.plant.world.config.tickSeconds, h.wall)
    requires d.state.Running().sequence == Some(sequence)
    requires s == d.state.(a := Aged(d.state, d.plant.world.config.tickSeconds, SlotA),
                           b := Aged(d.state, d.plant.world.config.tickSeconds, SlotB))
    requires StateFine(s) && Alive(s, l, sequence)
    requires forall faulted, normal :: EndingOf(s, faulted, normal) == EndingOf(d.state, faulted, normal)
    ensures AliveOrOver(Do(fx, d, h), false, l, sequence, d.controller.value.program)
  {
    var phase := PhaseOf(fx, d, h.draw, h.crash);
    HowATickEnds(fx, d, h.draw, h.wall, h.crash);
    PhaseKeepsProgram(fx, d, h.draw, h.crash);
    EndsAlive(EndingOf(d.state, phase.faulted, phase.plant.sup.state.Normal?), s, phase, Do(fx, d, h), l, sequence);
  }

  lemma OverTick(fx: Fixture, d: Device, h: Happening, sequence: int)
    requires fx.setup.Valid() && Coherent(d) && h.TickHappens? && Over(d.state, sequence)
    ensures Over(Do(fx, d, h).state, sequence)
  {
    if LeaseSpent(d.state, d.plant.world.config.tickSeconds, h.wall) {
      SpentLeaseEndsIt(fx, d, h.draw, h.wall, h.crash);
    } else {
      HowATickEnds(fx, d, h.draw, h.wall, h.crash);
    }
  }

  lemma OtherStep(fx: Fixture, d: Device, h: Happening)
    requires fx.setup.Valid() && Coherent(d) && NoNewcomer(fx, d, h) && !h.TickHappens?
    ensures Do(fx, d, h).state == d.state
    ensures Do(fx, d, h).controller.value.program == d.controller.value.program
  {
    match h
    case PackageArrives(package, leaseWall, recordWall) => InstallMeans(fx, d, package, leaseWall, recordWall);
    case RestartHappens => RestartMeans(fx, d);
    case _ =>
  }

  lemma {:induction false} OverStays(fx: Fixture, d: Device, run: seq<Happening>, sequence: int)
    requires fx.setup.Valid() && Coherent(d) && Over(d.state, sequence)
    requires Throughout(Doer(fx), Undisturbed(fx, sequence), d, run)
    ensures Iterate(Doer(fx), d, run).state.Running().sequence != Some(sequence)
    decreases |run|
  {
    if run != [] {
      HappeningIsCoherent(fx, d, run[0]);
      if run[0].TickHappens? {
        OverTick(fx, d, run[0], sequence);
      } else {
        OtherStep(fx, d, run[0]);
      }
      OverStays(fx, Do(fx, d, run[0]), run[1..], sequence);
    }
  }

  /** No clock reading of the run finds the lease spent. */
  predicate WallsBelow(run: seq<Happening>, l: Lease) {
    forall i :: 0 <= i < |run| && run[i].TickHappens? ==> run[i].wall - l.installedAtWall < l.duration as real
  }

  lemma WallsBelowCons(run: seq<Happening>, l: Lease)
    requires run != []
    ensures WallsBelow(run, l) <==>
      (run[0].TickHappens? ==> run[0].wall - l.installedAtWall < l.duration as real) && WallsBelow(run[1..], l)
  {
    assert forall i :: 0 <= i < |run[1..]| ==> run[1..][i] == run[i + 1];
    assert forall i :: 1 <= i < |run| ==> run[i] == run[1..][i - 1];
  }

  /** The time the ticks of a run take. */
  function Time(run: seq<Happening>, dt: real): real {
    if run == [] then 0.0 else (if run[0].TickHappens? then dt else 0.0) + Time(run[1..], dt)
  }

  lemma {:induction false} TimeIs(run: seq<Happening>, dt: real)
    ensures Time(run, dt) == DeviceLeases.Ticks(run) as real * dt
    ensures dt >= 0.0 ==> Time(run, dt) >= 0.0
  {
    if run != [] {
      TimeIs(run[1..], dt);
      TicksCons(run);
      OneMore(DeviceLeases.Ticks(run[1..]), dt);
    }
  }

  lemma {:induction false} TicksCons(run: seq<Happening>)
    requires run != []
    ensures DeviceLeases.Ticks(run) == (if run[0].TickHappens? then 1 else 0) + DeviceLeases.Ticks(run[1..])
  {
  }

  /** What has become of the artifact after a run: on its lease, with so much used, or gone. */
  predicate Told(t: Device, holds: bool, l: Lease, used: real, sequence: int, program: Program) {
    if holds
    then t.state.Running().lease == Some(l.(elapsed := used)) && t.state.Running().sequence == Some(sequence)
         && t.controller.Some? && t.controller.value.program == program
    else t.state.Running().sequence != Some(sequence)
  }

  lemma {:induction false} LeaseDecides(fx: Fixture, d: Device, run: seq<Happening>, l: Lease, sequence: int, dt: real)
    requires fx.setup.Valid() && Coherent(d) && Alive(d.state, l, sequence) && l.elapsed < l.duration as real
    requires dt == d.plant.world.config.tickSeconds && Throughout(Doer(fx), Undisturbed(fx, sequence), d, run)
    ensures Told(Iterate(Doer(fx), d, run),
                 WallsBelow(run, l) && l.elapsed + Time(run, dt) < l.duration as real,
                 l, l.elapsed + Time(run, dt), sequence, d.controller.value.program)
    decreases |run|
  {
    if run != [] {
      var next := Doer(fx)(d, run[0]);
      HappeningIsCoherent(fx, d, run[0]);
      DeviceLeases.StepKeepsWorld(fx, d, run[0]);
      WallsBelowCons(run, l);
      TimeIs(run[1..], dt);
      if !run[0].TickHappens? {
        LeasePause(fx, d, run, l, sequence, dt, next);
      } else {
        LeaseTick(fx, d, run, l, sequence, dt, next);
      }
    }
  }

  lemma {:induction false} LeasePause(fx: Fixture, d: Device, run: seq<Happening>, l: Lease, sequence: int, dt: real,
                                      next: Device)
    requires fx.setup.Valid() && Coherent(d) && Alive(d.state, l, sequence) && l.elapsed < l.duration as real
    requires run != [] && !run[0].TickHappens? && NoNewcomer(fx, d, run[0])
    requires next == Doer(fx)(d, run[0]) && Coherent(next) && dt == next.plant.world.config.tickSeconds
    requires Throughout(Doer(fx), Undisturbed(fx, sequence), next, run[1..])
    requires WallsBelow(run, l) <==> WallsBelow(run[1..], l)
    ensures Told(Iterate(Doer(fx), next, run[1..]),
                 WallsBelow(run, l) && l.elapsed + Time(run, dt) < l.duration as real,
                 l, l.elapsed + Time(run, dt), sequence, d.controller.value.program)
    decreases |run|, 0
  {
    OtherStep(fx, d, run[0]);
    LeaseDecides(fx, next, run[1..], l, sequence, dt);
  }

  lemma {:induction false} LeaseTick(fx: Fixture, d: Device, run: seq<Happening>, l: Lease, sequence: int, dt: real,
                                     next: Device)
    requires fx.setup.Valid() && Coherent(d) && Alive(d.state, l, sequence) && l.elapsed < l.duration as real
    requires dt == d.plant.world.config.tickSeconds && run != [] && run[0].TickHappens?
    requires next == Doer(fx)(d, run[0]) && Coherent(next) && next.plant.world.config.tickSeconds == dt
    requires Untroubled(fx, d, run[0], sequence) && Throughout(Doer(fx), Undisturbed(fx, sequence), next, run[1..])
    requires WallsBelow(run, l) <==> run[0].wall - l.installedAtWall < l.duration as real && WallsBelow(run[1..], l)
    requires Time(run[1..], dt) >= 0.0 && dt > 0.0
    ensures Told(Iterate(Doer(fx), next, run[1..]),
                 WallsBelow(run, l) && l.elapsed + Time(run, dt) < l.duration as real,
                 l, l.elapsed + Time(run, dt), sequence, d.controller.value.program)
    decreases |run|, 0
  {
    AliveTick(fx, d, run[0], l, sequence);
    if LeaseSpent(d.state, dt, run[0].wall) {
      OverStays(fx, next, run[1..], sequence);
    } else {
      LeaseDecides(fx, next, run[1..], l.(elapsed := l.elapsed + dt), sequence, dt);
      OneTickLater(Iterate(Doer(fx), next, run[1..]), run, l, dt, sequence, d.controller.value.program);
    }
  }

  /** What is told of the rest of a run, from one tick on, tells the whole run. */
  lemma OneTickLater(t: Device, run: seq<Happening>, l: Lease, dt: real, sequence: int, program: Program)
    requires run != [] && run[0].TickHappens? && run[0].wall - l.installedAtWall < l.duration as real
    requires WallsBelow(run, l) <==> run[0].wall - l.installedAtWall < l.duration as real && WallsBelow(run[1..], l)
    requires var m := l.(elapsed := l.elapsed + dt);
      Told(t, WallsBelow(run[1..], m) && m.elapsed + Time(run[1..], dt) < m.duration as real, m,
           m.elapsed + Time(run[1..], dt), sequence, program)
    ensures Told(t, WallsBelow(run, l) && l.elapsed + Time(run, dt) < l.duration as real, l, l.elapsed + Time(run, dt),
                 sequence, program)
  {
    assert WallsBelow(run[1..], l.(elapsed := l.elapsed + dt)) <==> WallsBelow(run[1..], l);
  }

  /** After a run the artifact is running, on what is left of its lease, if and only if no clock reading was
      the lease's length past the installation and the ticks add up to less than it. */
  predicate LastedExactly(t: Device, run: seq<Happening>, dt: real, lease: Lease, sequence: int, program: Program) {
    var used := DeviceLeases.Ticks(run) as real * dt;
    Told(t, WallsBelow(run, lease) && used < lease.duration as real, lease, used, sequence, program)
  }

  lemma {:induction false} LeaseFrom(fx: Fixture, d: Device, run: seq<Happening>, l: Lease, sequence: int, dt: real)
    requires fx.setup.Valid() && Coherent(d) && Alive(d.state, l, sequence) && l.elapsed == 0.0 && l.duration > 0
    requires dt == d.plant.world.config.tickSeconds && Throughout(Doer(fx), Undisturbed(fx, sequence), d, run)
    ensures LastedExactly(Iterate(Doer(fx), d, run), run, dt, l, sequence, d.controller.value.program)
  {
    TimeIs(run, dt);
    LeaseDecides(fx, d, run, l, sequence, dt);
  }

  /** So through every run of ticks, restarts and refused packages in which it does not fail. */
  ghost predicate LastsExactly(step: (Device, Happening) -> Device, good: (Device, Happening) -> bool, d: Device,
                               dt: real, lease: Lease, sequence: int, program: Program)
  {
    forall run :: Throughout(step, good, d, run) ==>
      LastedExactly(Iterate(step, d, run), run, dt, lease, sequence, program)
  }

  lemma {:induction false} AliveLastsExactly(fx: Fixture, d: Device, l: Lease, sequence: int, dt: real)
    requires fx.setup.Valid() && Coherent(d) && Alive(d.state, l, sequence) && l.elapsed == 0.0 && l.duration > 0
    requires dt == d.plant.world.config.tickSeconds
    ensures LastsExactly(Doer(fx), Undisturbed(fx, sequence), d, dt, l, sequence, d.controller.value.program)
  {
    forall run | Throughout(Doer(fx), Undisturbed(fx, sequence), d, run)
      ensures LastedExactly(Iterate(Doer(fx), d, run), run, dt, l, sequence, d.controller.value.program)
    {
      LeaseFrom(fx, d, run, l, sequence, dt);
    }
  }

  /** From an accepted installation over the last-known-good slot, a lease lasts exactly as long as it says. */
  lemma ALeaseLastsExactly(fx: Fixture, d: Device, package: Package, leaseWall: real, recordWall: real)
    requires fx.setup.Valid() && Coherent(d) && Judge(fx, d, package).None? && package.leaseSeconds.Some?
    requires d.state.active == d.state.lastKnownGood
    ensures LastsExactly(Doer(fx), Undisturbed(fx, package.sequence),
                         Do(fx, d, PackageArrives(package, leaseWall, recordWall)), d.plant.world.config.tickSeconds,
                         Lease(package.leaseSeconds.value, 0.0, leaseWall), package.sequence, package.artifact)
  {
    InstalledIsAlive(fx, d, package, leaseWall, recordWall);
    AliveLastsExactly(fx, Do(fx, d, PackageArrives(package, leaseWall, recordWall)),
                      Lease(package.leaseSeconds.value, 0.0, leaseWall), package.sequence,
                      d.plant.world.config.tickSeconds);
  }

  lemma InstalledIsAlive(fx: Fixture, d: Device, package: Package, leaseWall: real, recordWall: real)
    requires fx.setup.Valid() && Coherent(d) && Judge(fx, d, package).None? && package.leaseSeconds.Some?
    requires d.state.active == d.state.lastKnownGood
    ensures var after := Do(fx, d, PackageArrives(package, leaseWall, recordWall));
      && Coherent(after) && Alive(after.state, Lease(package.leaseSeconds.value, 0.0, leaseWall), package.sequence)
      && package.leaseSeconds.value > 0 && after.plant.world == d.plant.world
      && after.controller.value.program == package.artifact
  {
    InstallMeans(fx, d, package, leaseWall, recordWall);
    InstallIsCoherent(fx, d, package, leaseWall, recordWall);
    assert package.sequence > d.state.watermark;
  }
}
