/** The device as an object: each method does to its fields, in the source's order, exactly what the
    functions of `Devices` say. */
module VirtualDevices {
  import opened Names
  import opened Programs
  import opened Worlds
  import opened Supervisors
  import opened SupervisorProofs
  import opened Runtime
  import opened Harness
  import opened Slots
  import opened Packages
  import opened Devices
  import opened Arithmetic
  import opened Thermal
  import opened DeviceThermal
  import opened DeviceSlots
  import opened Runs
  import Config

  class VirtualDevice {
    const fx: Fixture
    const world: ThermalWorld
    const supervisor: SafetySupervisor
    var controller: CompiledController?
    var state: DeviceState
    var saved: DeviceState

    predicate Valid() {
      supervisor.port == world && supervisor.setup == fx.setup && fx.setup.Valid()
    }

    function View(): Device
      reads this, world, supervisor, supervisor.port, controller
    {
      Device(Plant(world.View(), supervisor.Self()), if controller == null then None else Some(controller.View()),
             state, saved)
    }

    /** A process over an existing world and the content of the state file. */
    constructor (fx: Fixture, world: ThermalWorld, file: DeviceState)
      requires fx.setup.Valid()
      ensures Valid() && this.world == world && this.fx == fx && fresh(supervisor)
      ensures controller != null ==> fresh(controller)
      ensures View() == Boot(world.View(), file)
    {
      this.fx := fx;
      this.world := world;
      supervisor := new SafetySupervisor(world, fx.setup);
      controller := null;
      state, saved := file, file;
      new;
      if state.Running().artifact.Some? {
        StartProgram(state.Running().artifact.value);
      }
    }

    method SaveState()
      modifies this`saved
      ensures View() == Save(old(View()))
    {
      saved := state;
    }

    method StartProgram(program: Program)
      requires Valid()
      modifies this`controller, supervisor
      ensures View() == Start(old(View()), program)
      ensures controller != null && fresh(controller)
    {
      supervisor.Install(program);
      supervisor.LeaveSafe();
      var c := new CompiledController(program);
      c.Initialize(world.time, world.actuators);
      controller := c;
    }

    method ProvisionFactory(program: Program, wall: real)
      requires Valid()
      modifies this, supervisor
      ensures View() == Provision(fx, old(View()), program, wall)
      ensures controller != null && fresh(controller)
    {
      state := state.(a := SlotRecord(Some(program), Some(fx.crypto.artifactHash(program)), Some(0), Some(wall), None));
      state := state.(active := SlotA);
      state := state.(lastKnownGood := SlotA);
      state := state.(candidate := None);
      state := state.(status := NoCandidate);
      state := state.(failures := 0);
      StartProgram(program);
      SaveState();
    }

    /** Judge a package; an accepted one goes into the slot that is not active. */
    method InstallPackage(package: Package, leaseWall: real, recordWall: real) returns (rejection: Option<Rejection>)
      requires Valid()
      modifies this, supervisor
      ensures rejection == Judge(fx, old(View()), package)
      ensures View() == Install(fx, old(View()), package, leaseWall, recordWall)
      ensures controller == old(controller) || (controller != null && fresh(controller))
    {
      rejection := VerifyPackage(fx.crypto, fx.key, package, fx.deviceId, state.Running().artifactHash,
                                 state.watermark, fx.supported);
      if rejection.Some? {
        return;
      }
      var target := state.InactiveSlot();
      var lease :=
        if package.leaseSeconds.Some? then Some(Lease(package.leaseSeconds.value, 0.0, leaseWall)) else None;
      state := state.WithSlot(target, SlotRecord(Some(package.artifact), Some(package.artifactHash),
                                                 Some(package.sequence), Some(recordWall), lease));
      state := state.(watermark := package.sequence);
      state := state.(candidate := Some(target));
      state := state.(status := Probation);
      state := state.(probationLeft := Config.PROBATION_HEALTHY_TICKS);
      StartProgram(package.artifact);
      SaveState();
    }

    method RunTick(draw: Draw, wall: real, crash: bool)
      requires Valid()
      modifies this, world, supervisor, controller
      ensures View() == Tick(fx, old(View()), draw, wall, crash)
      ensures controller == old(controller) || (controller != null && fresh(controller))
    {
      AdvanceWorld(draw);
      ChargeRunningLease(wall);
      var faulted := StepController(crash);
      if faulted {
        OnFault();
      } else {
        ScoreCandidate();
      }
    }

    method AdvanceWorld(draw: Draw)
      requires Valid()
      modifies world, supervisor
      ensures View() == old(View()).(plant := PolicyPhase(fx.setup, old(View()).plant, draw))
    {
      world.Advance(draw);
      supervisor.Enforce(MetricsOf(world.View()), world.time);
    }

    method ChargeRunningLease(wall: real)
      requires Valid()
      modifies this, world`actuators, world`changes, supervisor, controller
      ensures View() == ChargeLease(fx, old(View()), wall)
      ensures controller == old(controller) || (controller != null && fresh(controller))
    {
      var running := state.RunningSlot();
      var record := state.Slot(running);
      if record.lease.None? {
        return;
      }
      var lease := record.lease.value.Advance(world.config.tickSeconds);
      state := state.WithSlot(running, record.(lease := Some(lease)));
      if !lease.Expired(wall) {
        SaveState();
        return;
      }
      var reverted := Revert();
    }

    method StepController(crash: bool) returns (faulted: bool)
      requires Valid()
      modifies world`actuators, world`changes, supervisor, controller
      ensures (View(), faulted) == Control(fx, old(View()), crash)
    {
      faulted := false;
      if controller == null || supervisor.state != Normal {
        return;
      }
      var intents: seq<Intent> := [];
      faulted := true;
      if !crash {
        faulted, intents := controller.TakeStep(Observe(world.View()));
      }
      if faulted {
        supervisor.EnterSafe();
        supervisor.Enforce(MetricsOf(world.View()), world.time);
      } else {
        var verdicts := supervisor.Apply(intents, world.time);
      }
    }

    method OnFault()
      requires Valid()
      modifies this, world`actuators, world`changes, supervisor, controller
      ensures View() == HandleFault(fx, old(View()))
      ensures controller == old(controller) || (controller != null && fresh(controller))
    {
      state := state.(failures := state.failures + 1);
      if state.status == Probation {
        state := state.(status := Slots.Failed);
        SaveState();
        var reverted := Revert();
      } else if state.failures >= Config.LOCAL_FAILURE_LIMIT {
        SaveState();
        var reverted := Revert();
      } else {
        SaveState();
      }
    }

    method ScoreCandidate()
      requires Valid()
      modifies this, world`actuators, world`changes, supervisor, controller
      ensures View() == ScoreProbation(fx, old(View()))
      ensures controller == old(controller) || (controller != null && fresh(controller))
    {
      if state.status != Probation {
        return;
      }
      if supervisor.state != Normal {
        state := state.(status := Slots.Failed);
        SaveState();
        var reverted := Revert();
        return;
      }
      state := state.(probationLeft := state.probationLeft - 1);
      if state.probationLeft > 0 {
        SaveState();
        return;
      }
      var previous := state.active;
      state := state.(lastKnownGood := previous);
      state := state.(active := if state.candidate.Some? then state.candidate.value else previous);
      state := state.(status := Activated);
      state := state.(failures := 0);
      SaveState();
    }

    /** Go back to last-known-good; the controller that leaves has its fallback considered before. */
    method Revert() returns (reverted: bool)
      requires Valid()
      modifies this, world`actuators, world`changes, supervisor, controller
      ensures View() == RevertLocal(fx, old(View()))
      ensures reverted <==> old(state.Slot(state.lastKnownGood).artifact.Some?)
      ensures controller == old(controller) || (controller != null && fresh(controller))
    {
      var target := state.Slot(state.lastKnownGood);
      if target.artifact.None? {
        supervisor.EnterSafe();
        return false;
      }
      if controller != null {
        var fallback := controller.ShutDown();
        var verdicts := supervisor.Apply(fallback, world.time);
      }
      var outgoing := state.RunningSlot();
      state := state.WithSlot(outgoing, state.Slot(outgoing).(lease := None));
      if state.status == Probation {
        state := state.(status := Slots.Failed);
      }
      state := state.(active := state.lastKnownGood);
      state := state.(candidate := None);
      StartProgram(target.artifact.value);
      supervisor.ReleaseUnowned(MetricsOf(world.View()), world.time);
      SaveState();
      reverted := true;
    }

    /** A restart: nothing survives but the world and the state file. */
    method RestartProcess() returns (next: VirtualDevice)
      requires Valid()
      ensures fresh(next) && next.Valid() && next.world == world && next.fx == fx
      ensures next.View() == Restart(View())
    {
      next := new VirtualDevice(fx, world, saved);
    }
  }

  /** The device after the first `k` ticks of a list. */
  ghost function Driven(fx: Fixture, d: Device, ticks: seq<Happening>, k: nat): Device
    requires fx.setup.Valid() && k <= |ticks|
  {
    Iterate(Doer(fx), d, ticks[..k])
  }

  lemma DrivenOnce(fx: Fixture, d: Device, ticks: seq<Happening>, k: nat)
    requires fx.setup.Valid() && k < |ticks| && ticks[k].TickHappens?
    ensures Driven(fx, d, ticks, k + 1) == Tick(fx, Driven(fx, d, ticks, k), ticks[k].draw, ticks[k].wall, ticks[k].crash)
  {
    assert ticks[..k + 1] == ticks[..k] + [ticks[k]];
    Split(Doer(fx), Anything(), d, ticks[..k], [ticks[k]]);
    Cons(Doer(fx), Anything(), Driven(fx, d, ticks, k), ticks[k], []);
    assert [ticks[k]] == [ticks[k]] + [];
  }

  lemma {:induction false} DrivenIsHeld(fx: Fixture, d: Device, ticks: seq<Happening>, k: nat, heat: real,
                                        epsilon: real)
    requires CoolsWhenHot(fx.setup) && Holdable(fx.setup, d.plant.world.config, heat, epsilon)
    requires StartsCool(d, heat, fx.setup.policy.emergencyC + epsilon) && k <= |ticks|
    requires forall i :: 0 <= i < |ticks| ==> ticks[i].TickHappens? && Accurate(ticks[i].draw, epsilon)
    ensures Held(Driven(fx, d, ticks, k), heat, fx.setup.policy.emergencyC + epsilon, d.plant.world.config)
    ensures Coherent(d) ==> Coherent(Driven(fx, d, ticks, k))
  {
    if k > 0 {
      DrivenIsHeld(fx, d, ticks, k - 1, heat, epsilon);
      DrivenOnce(fx, d, ticks, k - 1);
      var before, h := Driven(fx, d, ticks, k - 1), ticks[k - 1];
      TickIsBounded(fx, before, h.draw, h.wall, h.crash, heat, epsilon);
      if Coherent(before) {
        HappeningIsCoherent(fx, before, h);
      }
    }
  }

  lemma DrivenStaysBelow(fx: Fixture, d: Device, ticks: seq<Happening>, heat: real, epsilon: real, hold: real)
    requires CoolsWhenHot(fx.setup) && Holdable(fx.setup, d.plant.world.config, heat, epsilon)
    requires hold == fx.setup.policy.emergencyC + epsilon && StartsCool(d, heat, hold)
    requires forall i :: 0 <= i < |ticks| ==> ticks[i].TickHappens? && Accurate(ticks[i].draw, epsilon)
    ensures forall i :: 0 <= i <= |ticks| ==> StaysBelow(Driven(fx, d, ticks, i), heat, hold, d.plant.world.config)
    ensures Coherent(d) ==> Coherent(Driven(fx, d, ticks, |ticks|))
  {
    forall i | 0 <= i <= |ticks|
      ensures StaysBelow(Driven(fx, d, ticks, i), heat, hold, d.plant.world.config)
      ensures Coherent(d) ==> Coherent(Driven(fx, d, ticks, i))
    {
      DrivenIsHeld(fx, d, ticks, i, heat, epsilon);
    }
  }

  /** Let a device tick on its own, logging its temperature. */
  method Record(device: VirtualDevice, ticks: seq<Happening>) returns (log: seq<real>)
    requires device.Valid() && forall i :: 0 <= i < |ticks| ==> ticks[i].TickHappens?
    modifies device, device.world, device.supervisor, device.controller
    ensures device.View() == Driven(device.fx, old(device.View()), ticks, |ticks|)
    ensures Logged(log, device.fx, old(device.View()), ticks, |ticks|)
  {
    ghost var start := device.View();
    log := [];
    for i := 0 to |ticks|
      invariant device.controller == old(device.controller) || (device.controller != null && fresh(device.controller))
      invariant device.View() == Driven(device.fx, start, ticks, i) && Logged(log, device.fx, start, ticks, i)
    {
      DrivenOnce(device.fx, start, ticks, i);
      device.RunTick(ticks[i].draw, ticks[i].wall, ticks[i].crash);
      OneMoreLogged(log, device.fx, start, ticks, i, device.View());
      log := log + [device.world.temp];
    }
  }

  ghost predicate Logged(log: seq<real>, fx: Fixture, d: Device, ticks: seq<Happening>, k: nat)
    requires fx.setup.Valid() && k <= |ticks|
  {
    |log| == k && forall i :: 0 <= i < k ==> log[i] == Driven(fx, d, ticks, i + 1).plant.world.temp
  }

  lemma OneMoreLogged(log: seq<real>, fx: Fixture, d: Device, ticks: seq<Happening>, k: nat, after: Device)
    requires fx.setup.Valid() && k < |ticks| && Logged(log, fx, d, ticks, k)
    requires after == Driven(fx, d, ticks, k + 1)
    ensures Logged(log + [after.plant.world.temp], fx, d, ticks, k + 1)
  {
  }

  /** Whatever its slots hold and its clock says, and wherever its controller crashes, the log of a
      device never passes the thermal bound, and the device is coherent if it was. */
  method Drive(device: VirtualDevice, ticks: seq<Happening>, ghost heat: real, ghost epsilon: real, ghost hold: real)
    returns (log: seq<real>)
    requires device.Valid() && CoolsWhenHot(device.fx.setup)
    requires Holdable(device.fx.setup, device.world.config, heat, epsilon)
    requires hold == device.fx.setup.policy.emergencyC + epsilon && StartsCool(device.View(), heat, hold)
    requires forall i :: 0 <= i < |ticks| ==> ticks[i].TickHappens? && Accurate(ticks[i].draw, epsilon)
    modifies device, device.world, device.supervisor, device.controller
    ensures device.View() == Driven(device.fx, old(device.View()), ticks, |ticks|)
    ensures Logged(log, device.fx, old(device.View()), ticks, |ticks|)
    ensures forall i :: 0 <= i < |log| ==> log[i] <= Max(hold, WithoutFan(device.world.config, heat, hold))
    ensures old(Coherent(device.View())) ==> Coherent(device.View())
  {
    ghost var start := device.View();
    log := Record(device, ticks);
    DrivenStaysBelow(device.fx, start, ticks, heat, epsilon, hold);
  }
}
