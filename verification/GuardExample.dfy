/** A concrete run in which an unguarded install costs a device its factory image. */
module GuardExample {
  import opened Names
  import opened Manifests
  import opened Registries
  import opened Programs
  import opened Worlds
  import opened Supervisors
  import opened Runtime
  import opened Harness
  import opened Slots
  import opened Packages
  import opened Devices
  import opened DeviceSlots
  import opened DeviceLeases
  import opened DeviceRuns
  import opened Runs

  /** A program that does nothing, built against a given base. */
  function Idle(name: string, base: Hash): Program {
    Program(MonitorOnly, name, name, "", "node", base, "1", "", 1.0, 900, 95.0, [], [], [], FallbackRestorePrevious,
            ProgramBudget(1.0, 1, 1, 0.0, 0), 0)
  }

  /** A device without actuators; an artifact's hash is its name, and every signature is empty. */
  const FX := Fixture(
    Setup(DEFAULT_POLICY, Registry("1", "", {}, [], map[], map[]), Schema("node", map[], {}, None)),
    "node",
    Crypto((p: Program) => p.manifestId, (k: Key, p: Package) => ""),
    "", {"1"})

  const WORLD := InitialWorld(
    WorldConfig(1.0, 25.0, 25.0, 0.0, 0.0, 0.02, 0.15, 1.0, 0.0, NoFault, 0, 0.0, 0.0, None, 0.0, []), Draw(0.0, 0.0))

  const FACTORY := Idle("factory", "")
  const FIRST := BuildPackage(FX.crypto, "", Idle("first", "factory"), 1, 0, Some(900))
  const SECOND := BuildPackage(FX.crypto, "", Idle("second", "first"), 2, 0, Some(900))

  const CALM := TickHappens(Draw(0.0, 0.0), 0.0, false)

  const PROVISIONED := Provision(FX, Boot(WORLD, BLANK), FACTORY, 0.0)
  const STAGED := Install(FX, PROVISIONED, FIRST, 0.0, 0.0)

  /** The device `used` seconds into its first package's lease. */
  predicate IdleOnLease(d: Device, used: real) {
    && InStep(d) && d.plant.world.config == WORLD.config && d.plant.sup.state.Normal?
    && d.controller.value.program == FIRST.artifact && d.state.watermark == 1
    && d.state.Running()
       == SlotRecord(Some(FIRST.artifact), Some("first"), Some(1), Some(0.0), Some(Lease(900, used, 0.0)))
  }

  lemma ControlIsIdle(p: Plant, c: Controller)
    requires p.sup.state.Normal? && c.program == FIRST.artifact && c.startedAt.Some? && !Elapsed(c, p.world.time)
    ensures var phase := ControlPhase(FX.setup, p, c, false);
      !phase.faulted && phase.plant == p
  {
  }

  lemma PolicyIsIdle(d: Device, used: real)
    requires IdleOnLease(d, used)
    ensures PolicyPhase(FX.setup, d.plant, CALM.draw).sup.state.Normal?
  {
  }

  lemma IdleTickIsSmooth(d: Device, used: real)
    requires IdleOnLease(d, used) && 0.0 <= used < 890.0
    ensures SmoothTick(FX, d, CALM) && LoopTick(FX.setup, RigOf(d), CALM.draw, false).plant.sup.state.Normal?
  {
    PolicyFrame(FX.setup, d.plant, CALM.draw);
    PolicyIsIdle(d, used);
    WorldRunsAhead(FX, d, CALM.draw);
    ControlIsIdle(PolicyPhase(FX.setup, d.plant, CALM.draw), d.controller.value);
    ChargedIsFine(d.state, 1.0);
  }

  /** What a smooth tick leaves of the slots: one charge on the running lease. */
  lemma SmoothTickCharges(d: Device)
    requires Coherent(d) && SmoothTick(FX, d, CALM)
    ensures var s := Do(FX, d, CALM).state;
      && s.watermark == d.state.watermark
      && s.Running() == Charged(d.state, d.plant.world.config.tickSeconds).Running()
  {
    PolicyFrame(FX.setup, d.plant, CALM.draw);
    ChargedIsFine(d.state, d.plant.world.config.tickSeconds);
  }

  lemma IdleTick(d: Device, used: real)
    requires IdleOnLease(d, used) && 0.0 <= used < 890.0
    ensures SmoothTick(FX, d, CALM) && IdleOnLease(Do(FX, d, CALM), used + 1.0)
  {
    IdleTickIsSmooth(d, used);
    SmoothTickIsLoopTick(FX, d, CALM);
    SmoothTickCharges(d);
    HappeningLeads(FX, d, CALM);
    TickIsCoherent(FX, d, CALM.draw, CALM.wall, CALM.crash);
  }

  ghost predicate StaysIdle(step: (Device, Happening) -> Device, smooth: (Device, Happening) -> bool) {
    forall d, used {:trigger smooth(d, CALM), IdleOnLease(d, used)} :: IdleOnLease(d, used) && 0.0 <= used < 890.0 ==>
      smooth(d, CALM) && IdleOnLease(step(d, CALM), used + 1.0)
  }

  lemma DeviceStaysIdle()
    ensures StaysIdle(Doer(FX), Smooth(FX))
  {
    forall d, used {:trigger Smooth(FX)(d, CALM), IdleOnLease(d, used)} | IdleOnLease(d, used) && 0.0 <= used < 890.0
      ensures Smooth(FX)(d, CALM) && IdleOnLease(Doer(FX)(d, CALM), used + 1.0)
    {
      IdleTick(d, used);
    }
  }

  lemma {:induction false} IdleTicks(step: (Device, Happening) -> Device, smooth: (Device, Happening) -> bool,
                                     d: Device, used: real, run: seq<Happening>)
    requires StaysIdle(step, smooth)
    requires IdleOnLease(d, used) && 0.0 <= used && used + |run| as real <= 890.0
    requires forall i :: 0 <= i < |run| ==> run[i] == CALM
    ensures Throughout(step, smooth, d, run)
    ensures IdleOnLease(Iterate(step, d, run), used + |run| as real)
    decreases |run|
  {
    if run != [] {
      assert smooth(d, CALM);
      IdleTicks(step, smooth, step(d, run[0]), used + 1.0, run[1..]);
    }
  }

  lemma FirstIsStaged()
    ensures Judge(FX, PROVISIONED, FIRST).None?
    ensures IdleOnLease(STAGED, 0.0) && OnProbation(STAGED.state, 5, SlotA)
  {
    assert FIRST.(signature := "") == FIRST;
    assert Judge(FX, PROVISIONED, FIRST).None?;
    InstallIsCoherent(FX, PROVISIONED, FIRST, 0.0, 0.0);
  }

  /** Provision, install, five healthy ticks, install again: the second package is accepted, and
      whatever reverts the device then puts that same package back, without a lease. The factory
      image is in neither slot. */
  lemma {:induction false} GuardIsNeeded(staged: Device, run: seq<Happening>)
    requires IdleOnLease(staged, 0.0) && OnProbation(staged.state, 5, SlotA)
    requires |run| == 5 && forall i :: 0 <= i < |run| ==> run[i] == CALM
    ensures var promoted := Iterate(Doer(FX), staged, run);
      var reverted := RevertLocal(FX, Install(FX, promoted, SECOND, 0.0, 0.0));
      && Judge(FX, promoted, SECOND).None?
      && reverted.controller.Some? && reverted.controller.value.program == SECOND.artifact
      && reverted.state.Running().lease.None?
      && reverted.state.a.artifact != Some(FACTORY) && reverted.state.b.artifact != Some(FACTORY)
  {
    DeviceStaysIdle();
    IdleTicks(Doer(FX), Smooth(FX), staged, 0.0, run);
    HealthyTicksPromote(FX, staged, run, 5, SlotA);
    SecondIsFatal(Iterate(Doer(FX), staged, run));
  }

  lemma SecondIsFatal(d: Device)
    requires IdleOnLease(d, 5.0) && Succeeded(d.state, SlotA)
    ensures Judge(FX, d, SECOND).None?
    ensures var reverted := RevertLocal(FX, Install(FX, d, SECOND, 0.0, 0.0));
      && reverted.controller.Some? && reverted.controller.value.program == SECOND.artifact
      && reverted.state.Running().lease.None?
      && reverted.state.a.artifact != Some(FACTORY) && reverted.state.b.artifact != Some(FACTORY)
  {
    assert SECOND.(signature := "") == SECOND;
    UnguardedRevertKeepsTheCandidate(FX, d, SECOND, 0.0, 0.0);
    InstallIsCoherent(FX, d, SECOND, 0.0, 0.0);
    RevertOutcome(FX, Install(FX, d, SECOND, 0.0, 0.0));
    assert d.state.b.artifact == Some(FIRST.artifact);
  }
}
