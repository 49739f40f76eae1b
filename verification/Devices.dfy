/** The device that owns its own firmware lifecycle: install, tick, expire, revert, restart. */
module Devices {
  import opened Names
  import opened Programs
  import opened Worlds
  import opened Supervisors
  import opened Runtime
  import opened Harness
  import opened Slots
  import opened Packages
  import Config

  /** What a device is built with and keeps over restarts. */
  datatype Fixture = Fixture(setup: Setup, deviceId: string, crypto: Crypto, key: Key, supported: set<string>)

  /** `saved` is the content of the state file. */
  datatype Device = Device(plant: Plant, controller: Option<Controller>, state: DeviceState, saved: DeviceState)

  function Save(d: Device): Device { d.(saved := d.state) }

  // ----- Boot -----

  function Start(d: Device, program: Program): Device {
    d.(plant := d.plant.(sup := LeaveSafeState(InstallProgram(d.plant.sup, program))),
       controller := Some(Initialized(program, d.plant.world.time, d.plant.world.actuators)))
  }

  /** A new process over a world and a state file. */
  function Boot(world: World, file: DeviceState): Device {
    var d := Device(Plant(world, Started()), None, file, file);
    if file.Running().artifact.Some? then Start(d, file.Running().artifact.value) else d
  }

  function Restart(d: Device): Device { Boot(d.plant.world, d.saved) }

  /** The factory image: slot A, no package, no lease. */
  function Provision(fx: Fixture, d: Device, program: Program, wall: real): Device {
    var record := SlotRecord(Some(program), Some(fx.crypto.artifactHash(program)), Some(0), Some(wall), None);
    Save(Start(d.(state := d.state.(a := record, active := SlotA, lastKnownGood := SlotA, candidate := None,
                                    status := NoCandidate, failures := 0)),
               program))
  }

  // ----- Installation -----

  function Judge(fx: Fixture, d: Device, package: Package): Option<Rejection> {
    VerifyPackage(fx.crypto, fx.key, package, fx.deviceId, d.state.Running().artifactHash, d.state.watermark,
                  fx.supported)
  }

  /** Stage an accepted package into the inactive slot. The clock is read twice, once for the lease. */
  function StagePackage(s: DeviceState, package: Package, leaseWall: real, recordWall: real): DeviceState {
    var lease :=
      if package.leaseSeconds.Some? then Some(Lease(package.leaseSeconds.value, 0.0, leaseWall)) else None;
    var record := SlotRecord(Some(package.artifact), Some(package.artifactHash), Some(package.sequence),
                             Some(recordWall), lease);
    s.WithSlot(s.InactiveSlot(), record)
     .(watermark := package.sequence, candidate := Some(s.InactiveSlot()), status := Probation,
       probationLeft := Config.PROBATION_HEALTHY_TICKS)
  }

  function Install(fx: Fixture, d: Device, package: Package, leaseWall: real, recordWall: real): Device {
    if Judge(fx, d, package).Some? then d
    else Save(Start(d.(state := StagePackage(d.state, package, leaseWall, recordWall)), package.artifact))
  }

  // ----- Local recovery -----

  /** The outgoing controller's declared fallback, considered by the supervisor. */
  function RunFallback(fx: Fixture, d: Device): Device {
    if d.controller.None? then d
    else
      var e := Shutdown(d.controller.value);
      d.(plant := ApplyIntents(fx.setup, d.plant, e.intents, d.plant.world.time), controller := Some(e.after))
  }

  function WithoutLease(s: DeviceState, name: SlotName): DeviceState {
    s.WithSlot(name, s.Slot(name).(lease := None))
  }

  /** The slot bookkeeping of a revert. */
  function Reverted(s: DeviceState): DeviceState {
    WithoutLease(s, s.RunningSlot())
      .(status := if s.status.Probation? then Failed else s.status, active := s.lastKnownGood, candidate := None)
  }

  /** Go back to last-known-good; where there is none the safe state is all that is left. */
  function RevertLocal(fx: Fixture, d: Device): Device
    requires fx.setup.Valid()
  {
    var target := d.state.Slot(d.state.lastKnownGood);
    if target.artifact.None? then d.(plant := d.plant.(sup := EnterSafeState(d.plant.sup)))
    else
      var left := RunFallback(fx, d);
      var started := Start(left.(state := Reverted(left.state)), target.artifact.value);
      Save(started.(plant := ManageUnowned(fx.setup, started.plant, MetricsOf(started.plant.world),
                                           started.plant.world.time)))
  }

  // ----- The tick -----

  function Charged(s: DeviceState, delta: real): DeviceState {
    var record := s.Running();
    if record.lease.None? then s
    else s.WithSlot(s.RunningSlot(), record.(lease := Some(record.lease.value.Advance(delta))))
  }

  /** Advance the running lease; revert if it is spent. */
  function ChargeLease(fx: Fixture, d: Device, wall: real): Device
    requires fx.setup.Valid()
  {
    if d.state.Running().lease.None? then d
    else
      var charged := d.(state := Charged(d.state, d.plant.world.config.tickSeconds));
      if !charged.state.Running().lease.value.Expired(wall) then Save(charged) else RevertLocal(fx, charged)
  }

  function HandleFault(fx: Fixture, d: Device): Device
    requires fx.setup.Valid()
  {
    var counted := d.(state := d.state.(failures := d.state.failures + 1));
    if counted.state.status.Probation? then
      RevertLocal(fx, Save(counted.(state := counted.state.(status := Failed))))
    else if counted.state.failures >= Config.LOCAL_FAILURE_LIMIT then RevertLocal(fx, Save(counted))
    else Save(counted)
  }

  /** The candidate takes over, and what was active is what to fall back to from now on. */
  function Promoted(s: DeviceState): DeviceState {
    s.(lastKnownGood := s.active, active := if s.candidate.Some? then s.candidate.value else s.active,
       status := Activated, failures := 0)
  }

  function ScoreProbation(fx: Fixture, d: Device): Device
    requires fx.setup.Valid()
  {
    if !d.state.status.Probation? then d
    else if d.plant.sup.state != Normal then RevertLocal(fx, Save(d.(state := d.state.(status := Failed))))
    else
      var scored := d.state.(probationLeft := d.state.probationLeft - 1);
      Save(d.(state := if scored.probationLeft > 0 then scored else Promoted(scored)))
  }

  /** The control phase, and whether it faulted. Without a controller there is none. */
  function Control(fx: Fixture, d: Device, crash: bool): (Device, bool)
    requires fx.setup.Valid()
  {
    if d.controller.None? then (d, false)
    else
      var phase := ControlPhase(fx.setup, d.plant, d.controller.value, crash);
      (d.(plant := phase.plant, controller := Some(phase.controller)), phase.faulted)
  }

  /** World and policy have moved, the lease is charged: the state the controller is stepped from. */
  function BeforeControl(fx: Fixture, d: Device, draw: Draw, wall: real): Device
    requires fx.setup.Valid()
  {
    ChargeLease(fx, d.(plant := PolicyPhase(fx.setup, d.plant, draw)), wall)
  }

  function Tick(fx: Fixture, d: Device, draw: Draw, wall: real, crash: bool): Device
    requires fx.setup.Valid()
  {
    var (stepped, faulted) := Control(fx, BeforeControl(fx, d, draw, wall), crash);
    if faulted then HandleFault(fx, stepped) else ScoreProbation(fx, stepped)
  }

  // ----- Everything that can happen -----

  datatype Happening =
    | TickHappens(draw: Draw, wall: real, crash: bool)
    | PackageArrives(package: Package, leaseWall: real, recordWall: real)
    | RestartHappens
    | ProvisionHappens(program: Program, wall: real)

  function Do(fx: Fixture, d: Device, h: Happening): Device
    requires fx.setup.Valid()
  {
    match h
    case TickHappens(draw, wall, crash) => Tick(fx, d, draw, wall, crash)
    case PackageArrives(package, leaseWall, recordWall) => Install(fx, d, package, leaseWall, recordWall)
    case RestartHappens => Restart(d)
    case ProvisionHappens(program, wall) => Provision(fx, d, program, wall)
  }

  function Doer(fx: Fixture): (Device, Happening) -> Device
    requires fx.setup.Valid()
  {
    (d: Device, h: Happening) => Do(fx, d, h)
  }
}
