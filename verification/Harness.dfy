/** The simulation harness: one tick loop over a world, a supervisor and a controller. */
module Harness {
  import opened Names
  import opened Programs
  import opened Worlds
  import opened Supervisors
  import opened SupervisorProofs
  import opened Runtime
  import opened Runs

  datatype Rig = Rig(plant: Plant, controller: Controller)

  /** Outcome of the control phase of a tick. */
  datatype Phase = Phase(plant: Plant, controller: Controller, faulted: bool, intents: seq<Intent>,
                         verdicts: seq<Verdict>)

  function Observe(w: World): Observation {
    Observation(w.tick, w.time, MetricsOf(w), w.actuators)
  }

  /** Step the controller if it still has control, then let the supervisor consider its intents. A
      fault, the controller's own or an injected crash, puts safe state in force within the tick. */
  function ControlPhase(setup: Setup, p: Plant, c: Controller, crash: bool): Phase
    requires setup.Valid()
  {
    if p.sup.state.SafeState? then Phase(p, c, false, [], [])
    else
      var result := if crash then Fault else Step(c, Observe(p.world));
      match result
      case Fault =>
        var safe := p.(sup := EnterSafeState(p.sup));
        Phase(EnforceLocalPolicy(setup, safe, MetricsOf(p.world), p.world.time), c, true, [], [])
      case Stepped(e) =>
        Phase(ApplyIntents(setup, p, e.intents, p.world.time), e.after, false, e.intents,
              Verdicts(setup, p, e.intents, p.world.time))
  }

  /** The world advances, sensors are read, the local policy runs. */
  function PolicyPhase(setup: Setup, p: Plant, draw: Draw): Plant
    requires setup.Valid()
  {
    var w := StepWorld(p.world, draw);
    EnforceLocalPolicy(setup, Plant(w, p.sup), MetricsOf(w), w.time)
  }

  function LoopPhase(setup: Setup, rig: Rig, draw: Draw, crash: bool): Phase
    requires setup.Valid()
  {
    ControlPhase(setup, PolicyPhase(setup, rig.plant, draw), rig.controller, crash)
  }

  function LoopTick(setup: Setup, rig: Rig, draw: Draw, crash: bool): Rig
    requires setup.Valid()
  {
    var phase := LoopPhase(setup, rig, draw, crash);
    Rig(phase.plant, phase.controller)
  }

  /** One row of the trace, the part of it that judges a run. */
  datatype Row = Row(tick: nat, time: real, temp: real, reading: real, fan: Level, state: SafetyState,
                     emergency: bool, intents: seq<Intent>, verdicts: seq<Verdict>)

  function RowOf(phase: Phase): Row {
    var w := phase.plant.world;
    Row(w.tick, w.time, w.temp, Reading(w), w.actuators[Fan], phase.plant.sup.state, phase.plant.sup.emergency,
        phase.intents, phase.verdicts)
  }

  predicate Crashes(crashTick: Option<nat>, tick: nat) {
    crashTick.Some? && tick >= crashTick.value
  }

  /** The rig after a list of draws, with the controller crashing from `crashTick` on. */
  function RunLoop(setup: Setup, rig: Rig, draws: seq<Draw>, crashTick: Option<nat>): Rig
    requires setup.Valid()
    decreases |draws|
  {
    if draws == [] then rig
    else
      RunLoop(setup, LoopTick(setup, rig, draws[0], Crashes(crashTick, rig.plant.world.tick + 1)), draws[1..], crashTick)
  }

  function RowsOf(setup: Setup, rig: Rig, draws: seq<Draw>, crashTick: Option<nat>): seq<Row>
    requires setup.Valid()
    decreases |draws|
  {
    if draws == [] then []
    else
      var crash := Crashes(crashTick, rig.plant.world.tick + 1);
      [RowOf(LoopPhase(setup, rig, draws[0], crash))]
      + RowsOf(setup, LoopTick(setup, rig, draws[0], crash), draws[1..], crashTick)
  }

  /** One undisturbed tick as a step function. */
  function Ticker(setup: Setup): (Rig, Draw) -> Rig
    requires setup.Valid()
  {
    (rig: Rig, draw: Draw) => LoopTick(setup, rig, draw, false)
  }

  lemma {:induction false} RunIsIterate(setup: Setup, rig: Rig, draws: seq<Draw>)
    requires setup.Valid()
    ensures RunLoop(setup, rig, draws, None) == Iterate(Ticker(setup), rig, draws)
    decreases |draws|
  {
    if draws != [] {
      RunIsIterate(setup, LoopTick(setup, rig, draws[0], false), draws[1..]);
    }
  }

  lemma {:induction false} FirstRow(setup: Setup, rig: Rig, draws: seq<Draw>)
    requires setup.Valid() && draws != []
    ensures RowsOf(setup, rig, draws, None)
         == [RowOf(LoopPhase(setup, rig, draws[0], false))]
            + RowsOf(setup, Ticker(setup)(rig, draws[0]), draws[1..], None)
  {
  }

  lemma AllOfCons(row: Row, rows: seq<Row>, shown: Row -> bool)
    ensures (forall i :: 0 <= i < |[row] + rows| ==> shown(([row] + rows)[i]))
       <==> shown(row) && (forall i :: 0 <= i < |rows| ==> shown(rows[i]))
  {
    var all := [row] + rows;
    assert all[0] == row;
    assert forall i :: 0 <= i < |rows| ==> all[i + 1] == rows[i];
  }

  /** The rows of a crash-free run show exactly what its ticks show. */
  lemma {:induction false} RowsShow(setup: Setup, rig: Rig, draws: seq<Draw>, seen: (Rig, Draw) -> bool,
                                    shown: Row -> bool)
    requires setup.Valid()
    requires forall r, d :: seen(r, d) <==> shown(RowOf(LoopPhase(setup, r, d, false)))
    ensures Throughout(Ticker(setup), seen, rig, draws)
       <==> forall i :: 0 <= i < |RowsOf(setup, rig, draws, None)| ==> shown(RowsOf(setup, rig, draws, None)[i])
    decreases |draws|
  {
    if draws != [] {
      var after := Ticker(setup)(rig, draws[0]);
      FirstRow(setup, rig, draws);
      RowsShow(setup, after, draws[1..], seen, shown);
      AllOfCons(RowOf(LoopPhase(setup, rig, draws[0], false)), RowsOf(setup, after, draws[1..], None), shown);
    }
  }

  /** The state a scenario starts in. */
  function ScenarioStart(program: Program, config: WorldConfig, draw: Draw): Rig {
    var world := InitialWorld(config, draw);
    Rig(Plant(world, InstallProgram(Started(), program)), Initialized(program, 0.0, world.actuators))
  }

  /** Drive one compiled controller through one scenario. The draws stand for the seeded generator. */
  method RunScenario(program: Program, setup: Setup, config: WorldConfig, initial: Draw, draws: seq<Draw>,
                     crashTick: Option<nat>)
    returns (rows: seq<Row>, world: ThermalWorld, supervisor: SafetySupervisor, controller: CompiledController)
    requires setup.Valid()
    ensures rows == RowsOf(setup, ScenarioStart(program, config, initial), draws, crashTick)
    ensures supervisor.port == world
    ensures Rig(supervisor.View(), controller.View())
         == RunLoop(setup, ScenarioStart(program, config, initial), draws, crashTick)
  {
    world := new ThermalWorld(config, initial);
    supervisor := new SafetySupervisor(world, setup);
    supervisor.Install(program);
    controller := new CompiledController(program);
    controller.Initialize(0.0, world.actuators);
    ghost var start := ScenarioStart(program, config, initial);
    rows := [];
    for i := 0 to |draws|
      invariant supervisor.port == world && supervisor.setup == setup
      invariant fresh(world) && fresh(supervisor) && fresh(controller)
      invariant RunLoop(setup, start, draws, crashTick)
             == RunLoop(setup, Rig(supervisor.View(), controller.View()), draws[i..], crashTick)
      invariant RowsOf(setup, start, draws, crashTick)
             == rows + RowsOf(setup, Rig(supervisor.View(), controller.View()), draws[i..], crashTick)
    {
      OneMoreTick(setup, Rig(supervisor.View(), controller.View()), draws, i, crashTick, rows);
      var row := TickOnce(world, supervisor, controller, draws[i], crashTick);
      rows := rows + [row];
    }
  }

  lemma {:induction false} OneMoreRun(setup: Setup, rig: Rig, draws: seq<Draw>, i: nat, crashTick: Option<nat>)
    requires setup.Valid() && i < |draws|
    ensures var next := LoopTick(setup, rig, draws[i], Crashes(crashTick, rig.plant.world.tick + 1));
      RunLoop(setup, rig, draws[i..], crashTick) == RunLoop(setup, next, draws[i + 1..], crashTick)
  {
    assert draws[i..][1..] == draws[i + 1..];
  }

  lemma {:induction false} OneMoreRow(setup: Setup, rig: Rig, draws: seq<Draw>, i: nat, crashTick: Option<nat>)
    requires setup.Valid() && i < |draws|
    ensures var crash := Crashes(crashTick, rig.plant.world.tick + 1);
      var next := LoopTick(setup, rig, draws[i], crash);
      RowsOf(setup, rig, draws[i..], crashTick)
        == [RowOf(LoopPhase(setup, rig, draws[i], crash))] + RowsOf(setup, next, draws[i + 1..], crashTick)
  {
    assert draws[i..][1..] == draws[i + 1..];
  }

  lemma {:induction false} OneMoreTick(setup: Setup, rig: Rig, draws: seq<Draw>, i: nat, crashTick: Option<nat>,
                                       rows: seq<Row>)
    requires setup.Valid() && i < |draws|
    ensures var crash := Crashes(crashTick, rig.plant.world.tick + 1);
      var next := LoopTick(setup, rig, draws[i], crash);
      && RunLoop(setup, rig, draws[i..], crashTick) == RunLoop(setup, next, draws[i + 1..], crashTick)
      && rows + RowsOf(setup, rig, draws[i..], crashTick)
         == (rows + [RowOf(LoopPhase(setup, rig, draws[i], crash))]) + RowsOf(setup, next, draws[i + 1..], crashTick)
  {
    OneMoreRun(setup, rig, draws, i, crashTick);
    OneMoreRow(setup, rig, draws, i, crashTick);
  }

  /** One pass of the loop. */
  method TickOnce(world: ThermalWorld, supervisor: SafetySupervisor, controller: CompiledController, draw: Draw,
                  crashTick: Option<nat>) returns (row: Row)
    requires supervisor.port == world && supervisor.setup.Valid()
    modifies world, supervisor, controller
    ensures var rig := old(Rig(supervisor.View(), controller.View()));
      var phase := LoopPhase(supervisor.setup, rig, draw, Crashes(crashTick, rig.plant.world.tick + 1));
      && Rig(supervisor.View(), controller.View()) == Rig(phase.plant, phase.controller) && row == RowOf(phase)
  {
    world.Advance(draw);
    var metrics := MetricsOf(world.View());
    EnforceFrame(supervisor.setup, supervisor.View(), metrics, world.time);
    supervisor.Enforce(metrics, world.time);
    var intents, verdicts := StepController(world, supervisor, controller, crashTick);
    row := Row(world.tick, world.time, world.temp, Reading(world.View()), world.actuators[Fan], supervisor.state,
               supervisor.emergency, intents, verdicts);
  }

  /** The control phase of one pass. */
  method StepController(world: ThermalWorld, supervisor: SafetySupervisor, controller: CompiledController,
                        crashTick: Option<nat>) returns (intents: seq<Intent>, verdicts: seq<Verdict>)
    requires supervisor.port == world && supervisor.setup.Valid()
    modifies world`actuators, world`changes, supervisor, controller
    ensures var phase := ControlPhase(supervisor.setup, old(supervisor.View()), old(controller.View()),
                                      Crashes(crashTick, old(world.tick)));
      phase == Phase(supervisor.View(), controller.View(), phase.faulted, intents, verdicts)
  {
    intents, verdicts := [], [];
    if supervisor.state == SafeState { return; }
    var metrics := MetricsOf(world.View());
    var fault := true;
    if !(crashTick.Some? && world.tick >= crashTick.value) {
      fault, intents := controller.TakeStep(Observe(world.View()));
    }
    if fault {
      supervisor.EnterSafe();
      supervisor.Enforce(metrics, world.time);
    } else {
      verdicts := supervisor.Apply(intents, world.time);
    }
  }
}
