/** What the trace of a scenario can be trusted for: its rows follow one another by the laws of the world,
    every write is on record, and a crash or a broken sensor has exactly the consequences it should. */
module TraceProofs {
  import opened Names
  import opened Registries
  import opened Programs
  import opened Worlds
  import opened Supervisors
  import opened SupervisorProofs
  import opened PolicyProofs
  import opened Runtime
  import opened Harness
  import DeviceSlots

  // ----- One row after another -----

  /** The local policy and the control phase write actuators and their log, nothing else of the world. */
  lemma LoopFrame(setup: Setup, rig: Rig, draw: Draw, crash: bool)
    requires setup.Valid()
    ensures var phase := LoopPhase(setup, rig, draw, crash);
      SamePhysics(Plant(StepWorld(rig.plant.world, draw), rig.plant.sup), phase.plant)
  {
    DeviceSlots.PolicyFrame(setup, rig.plant, draw);
    DeviceSlots.ControlFrame(setup, PolicyPhase(setup, rig.plant, draw), rig.controller, crash);
  }

  /** A row follows the world before it: one tick later, at the temperature the heat balance gives with
      the fan as it was left and the load and spike due, and read by the sensor as it is then. */
  predicate RowFollows(w: World, row: Row) {
    && row.tick == w.tick + 1
    && row.time == row.tick as real * w.config.tickSeconds
    && var load := ScheduledLoad(w.config.loadSchedule, row.tick, w.load);
    && var start := w.temp + (if w.config.spikeAtTick == Some(row.tick) then w.config.spikeC else 0.0);
    && var k := w.config.kAmbient + (if w.actuators[Fan] == On then w.config.kFan * w.config.fanEffectiveness else 0.0);
    && row.temp == start + w.config.tickSeconds * (w.config.heatPerSecond * load - k * (start - w.config.ambientC))
  }

  /** What the sensor says of a temperature, given its fault and the noise of the tick. */
  predicate ReadAs(config: WorldConfig, tick: int, temp: real, noise: real, reading: real) {
    var broken := !config.sensorFault.NoFault? && tick >= config.sensorFaultFromTick;
    && (broken && config.sensorFault.StuckHigh? ==> reading == config.stuckHighC)
    && (broken && config.sensorFault.StuckLow? ==> reading == config.stuckLowC)
    && (!broken && config.sensorNoise != 0.0 ==> reading == temp + noise)
    && (!broken && config.sensorNoise == 0.0 ==> reading == temp)
  }

  lemma TickFollows(setup: Setup, rig: Rig, draw: Draw, crash: bool)
    requires setup.Valid()
    ensures var phase := LoopPhase(setup, rig, draw, crash);
      var row := RowOf(phase);
      && RowFollows(rig.plant.world, row)
      && ReadAs(rig.plant.world.config, row.tick, row.temp, draw.noise, row.reading)
      && row.fan == phase.plant.world.actuators[Fan] && row.state == phase.plant.sup.state
      && phase.plant.world.tick == row.tick && phase.plant.world.temp == row.temp
      && phase.plant.world.config == rig.plant.world.config
      && phase.plant.world.load == ScheduledLoad(rig.plant.world.config.loadSchedule, row.tick, rig.plant.world.load)
      && MetricsOf(phase.plant.world) == map[TemperatureC := row.reading, DistanceCm := draw.distanceCm]
  {
    LoopFrame(setup, rig, draw, crash);
    var w := rig.plant.world;
    var v := StepWorld(w, draw);
    var start := w.temp + Spike(w.config, v.tick);
    var cooling := Cooling(w.config, w.actuators[Fan]);
    SplitLoss(w.config.kAmbient, cooling, start - w.config.ambientC);
  }

  lemma SplitLoss(a: real, b: real, x: real)
    ensures (a + b) * x == a * x + b * x
  {
  }

  /** Of several load changes due at one tick the last one listed wins; with none due the load stays. */
  lemma {:induction false} TheLastChangeWins(schedule: seq<LoadStep>, tick: nat, load: real, i: nat)
    requires i < |schedule| ==> schedule[i].tick == tick
    requires forall j :: i < j < |schedule| ==> schedule[j].tick != tick
    requires i >= |schedule| ==> forall j :: 0 <= j < |schedule| ==> schedule[j].tick != tick
    ensures ScheduledLoad(schedule, tick, load) == if i < |schedule| then schedule[i].load else load
    decreases |schedule|
  {
    if schedule != [] {
      var rest := schedule[1..];
      var first := if schedule[0].tick == tick then schedule[0].load else load;
      assert forall j :: 0 <= j < |rest| ==> rest[j] == schedule[j + 1];
      if i == 0 {
        TheLastChangeWins(rest, tick, first, |rest|);
      } else if i < |schedule| {
        TheLastChangeWins(rest, tick, first, i - 1);
      } else {
        TheLastChangeWins(rest, tick, first, |rest|);
      }
    }
  }

  // ----- The books -----

  /** The levels a list of changes leads to. */
  function Replay(levels: map<Actuator, Level>, changes: seq<Change>): map<Actuator, Level> {
    if changes == [] then levels
    else
      var last := changes[|changes| - 1];
      Replay(levels, changes[..|changes| - 1])[last.actuator := last.level]
  }

  /** Every change on record was one. */
  predicate Real(levels: map<Actuator, Level>, changes: seq<Change>) {
    changes == [] ||
    var n := |changes| - 1;
    && Real(levels, changes[..n])
    && changes[n].actuator in Replay(levels, changes[..n])
    && Replay(levels, changes[..n])[changes[n].actuator] != changes[n].level
  }

  /** The world's own record of changes explains its levels, and the supervisor's log has one entry for
      each of them, at its time. */
  predicate Booked(levels: map<Actuator, Level>, p: Plant) {
    && Real(levels, p.world.changes) && p.world.actuators == Replay(levels, p.world.changes)
    && Dated(p.sup.log, p.world.changes, p.world.config.tickSeconds)
  }

  /** One entry for each change, in the same order, at its time. */
  predicate Dated(log: seq<Entry>, changes: seq<Change>, dt: real) {
    |log| == |changes|
    && (log == [] ||
        var n := |log| - 1;
        && Dated(log[..n], changes[..n], dt)
        && log[n].actuator == changes[n].actuator && log[n].time == changes[n].tick as real * dt)
  }

  lemma {:induction false} OneMoreChange(levels: map<Actuator, Level>, changes: seq<Change>, log: seq<Entry>, c: Change,
                                         e: Entry, dt: real)
    requires Real(levels, changes) && Dated(log, changes, dt)
    requires c.actuator in Replay(levels, changes) && Replay(levels, changes)[c.actuator] != c.level
    requires e.actuator == c.actuator && e.time == c.tick as real * dt
    ensures Real(levels, changes + [c]) && Dated(log + [e], changes + [c], dt)
    ensures Replay(levels, changes + [c]) == Replay(levels, changes)[c.actuator := c.level]
  {
    assert (changes + [c])[..|changes|] == changes && (log + [e])[..|log|] == log;
  }

  lemma {:induction false} WriteIsBooked(levels: map<Actuator, Level>, p: Plant, a: Actuator, level: Level, time: real,
                                         byIntent: bool)
    requires Booked(levels, p) && a in p.world.actuators
    requires time == p.world.tick as real * p.world.config.tickSeconds
    ensures var q := SetLevel(p, a, level, time, byIntent);
      Booked(levels, q) && q.world.tick == p.world.tick && q.world.config == p.world.config
  {
    if p.world.actuators[a] != level {
      OneMoreChange(levels, p.world.changes, p.sup.log, Change(p.world.tick, a, level), Entry(time, a, byIntent),
                    p.world.config.tickSeconds);
    }
  }

  lemma {:induction false} SafeAllIsBooked(levels: map<Actuator, Level>, setup: Setup, p: Plant, names: seq<Actuator>,
                                           reading: Option<real>, time: real)
    requires Booked(levels, p) && forall i :: 0 <= i < |names| ==> names[i] in setup.registry.actuators
    requires time == p.world.tick as real * p.world.config.tickSeconds
    ensures Booked(levels, SafeAll(setup, p, names, reading, time))
    decreases |names|
  {
    if names != [] {
      var a := names[0];
      if a in p.world.actuators {
        var level := ThermalTarget(setup, p.world, a, reading);
        WriteIsBooked(levels, p, a, level, time, false);
        SafeAllIsBooked(levels, setup, SetLevel(p, a, level, time, false), names[1..], reading, time);
      } else {
        SafeAllIsBooked(levels, setup, p, names[1..], reading, time);
      }
    }
  }

  lemma {:induction false} ReleaseAllIsBooked(levels: map<Actuator, Level>, setup: Setup, p: Plant,
                                              names: seq<Actuator>, driven: set<Actuator>, time: real)
    requires Booked(levels, p) && forall i :: 0 <= i < |names| ==> names[i] in setup.registry.actuators
    requires time == p.world.tick as real * p.world.config.tickSeconds
    ensures Booked(levels, ReleaseAll(setup, p, names, driven, time))
    decreases |names|
  {
    if names != [] {
      var a := names[0];
      if a in driven || a !in p.world.actuators {
        ReleaseAllIsBooked(levels, setup, p, names[1..], driven, time);
      } else {
        var level := setup.registry.actuators[a].defaultLevel;
        WriteIsBooked(levels, p, a, level, time, false);
        ReleaseAllIsBooked(levels, setup, SetLevel(p, a, level, time, false), names[1..], driven, time);
      }
    }
  }

  lemma {:induction false} IntentIsBooked(levels: map<Actuator, Level>, setup: Setup, p: Plant, intent: Intent,
                                          time: real)
    requires Booked(levels, p) && time == p.world.tick as real * p.world.config.tickSeconds
    ensures var q := Consider(setup, p, intent, time);
      Booked(levels, q) && q.world.tick == p.world.tick && q.world.config == p.world.config
  {
    if VerdictOn(setup, p, intent, time).Applied? {
      WriteIsBooked(levels, p, intent.spec.actuator.value, intent.spec.level.value, time, true);
    }
  }

  lemma {:induction false} IntentsAreBooked(levels: map<Actuator, Level>, setup: Setup, p: Plant,
                                            intents: seq<Intent>, time: real)
    requires Booked(levels, p) && time == p.world.tick as real * p.world.config.tickSeconds
    ensures Booked(levels, ApplyIntents(setup, p, intents, time))
    decreases |intents|
  {
    if intents != [] {
      IntentIsBooked(levels, setup, p, intents[0], time);
      IntentsAreBooked(levels, setup, Consider(setup, p, intents[0], time), intents[1..], time);
    }
  }

  lemma {:induction false} EmergencyIsBooked(levels: map<Actuator, Level>, setup: Setup, p: Plant, metrics: Metrics,
                                             time: real)
    requires Booked(levels, p) && time == p.world.tick as real * p.world.config.tickSeconds
    ensures var first := Emergency(setup, p, metrics, time);
      Booked(levels, first) && first.world.tick == p.world.tick && first.world.config == p.world.config
  {
    WriteIsBooked(levels, p.(sup := p.sup.(emergency := true, emergencyActivations := p.sup.emergencyActivations
                             + if p.sup.emergency then 0 else 1)), Fan, On, time, false);
  }

  lemma {:induction false} PolicyIsBooked(levels: map<Actuator, Level>, setup: Setup, p: Plant, metrics: Metrics,
                                          time: real)
    requires setup.Valid() && Booked(levels, p) && time == p.world.tick as real * p.world.config.tickSeconds
    ensures Booked(levels, EnforceLocalPolicy(setup, p, metrics, time))
  {
    var first := Emergency(setup, p, metrics, time);
    EmergencyIsBooked(levels, setup, p, metrics, time);
    SafeAllIsBooked(levels, setup, first, setup.registry.actuatorOrder, Lookup(metrics, TemperatureC), time);
    ReleaseAllIsBooked(levels, setup, first, setup.registry.actuatorOrder, DrivenActuators(setup, first.sup.allowed),
                       time);
  }

  lemma {:induction false} TickIsBooked(levels: map<Actuator, Level>, setup: Setup, rig: Rig, draw: Draw, crash: bool)
    requires setup.Valid() && Booked(levels, rig.plant)
    ensures Booked(levels, LoopPhase(setup, rig, draw, crash).plant)
  {
    var w := StepWorld(rig.plant.world, draw);
    var q := PolicyPhase(setup, rig.plant, draw);
    PolicyIsBooked(levels, setup, Plant(w, rig.plant.sup), MetricsOf(w), w.time);
    DeviceSlots.PolicyFrame(setup, rig.plant, draw);
    if q.sup.state.Normal? {
      PolicyIsBooked(levels, setup, q.(sup := EnterSafeState(q.sup)), MetricsOf(q.world), q.world.time);
      if Step(rig.controller, Observe(q.world)).Stepped? {
        IntentsAreBooked(levels, setup, q, Step(rig.controller, Observe(q.world)).emission.intents, q.world.time);
      }
    }
  }

  /** Nothing moves unseen: after any scenario, crash or not, the recorded changes lead from the initial
      levels to the present ones, each was a change when it was made, and the log that the transition
      budget is judged by has an entry for each, at its time. */
  lemma {:induction false} EveryWriteIsOnRecord(levels: map<Actuator, Level>, setup: Setup, rig: Rig, draws: seq<Draw>,
                                                crashTick: Option<nat>)
    requires setup.Valid() && Booked(levels, rig.plant)
    ensures Booked(levels, RunLoop(setup, rig, draws, crashTick).plant)
    decreases |draws|
  {
    if draws != [] {
      var crash := Crashes(crashTick, rig.plant.world.tick + 1);
      TickIsBooked(levels, setup, rig, draws[0], crash);
      EveryWriteIsOnRecord(levels, setup, LoopTick(setup, rig, draws[0], crash), draws[1..], crashTick);
    }
  }

  /** A scenario starts at tick zero with the fan off and nothing on record, under a normal supervisor that
      allows exactly what the program uses, with a controller that has not commanded anything. */
  lemma ScenarioStartsBooked(p: Program, config: WorldConfig, draw: Draw)
    ensures var start := ScenarioStart(p, config, draw);
      && Booked(map[Fan := Off], start.plant) && start.plant.world.changes == []
      && start.plant.world.tick == 0 && start.plant.world.time == 0.0 && start.plant.world.config == config
      && start.plant.world.temp == config.initialDeviceC && start.plant.world.load == config.load
      && start.plant.sup.state.Normal? && !start.plant.sup.emergency
      && start.plant.sup.allowed == p.CapabilitiesUsed()
      && start.controller.program == p && start.controller.startedAt == Some(0.0)
      && start.controller.lastTransition == map[] && start.controller.commanded == map[Fan := Off]
  {
  }

  // ----- Rows of a scenario -----

  /** The rig that row `i` is made from. */
  function Before(setup: Setup, rig: Rig, draws: seq<Draw>, crashTick: Option<nat>, i: nat): Rig
    requires setup.Valid() && i <= |draws|
  {
    RunLoop(setup, rig, draws[..i], crashTick)
  }

  function CrashAt(crashTick: Option<nat>, rig: Rig): bool { Crashes(crashTick, rig.plant.world.tick + 1) }

  lemma {:induction false} RunAt(setup: Setup, rig: Rig, draws: seq<Draw>, crashTick: Option<nat>, i: nat)
    requires setup.Valid() && i < |draws|
    ensures var before := Before(setup, rig, draws, crashTick, i);
      Before(setup, rig, draws, crashTick, i + 1) == LoopTick(setup, before, draws[i], CrashAt(crashTick, before))
    decreases |draws|
  {
    var next := LoopTick(setup, rig, draws[0], CrashAt(crashTick, rig));
    assert draws[..i + 1][1..] == draws[1..][..i];
    if i > 0 {
      RunAt(setup, next, draws[1..], crashTick, i - 1);
      assert draws[..i][1..] == draws[1..][..i - 1];
    } else {
      assert RunLoop(setup, next, draws[..1][1..], crashTick) == next;
    }
  }

  lemma {:induction false} RowAt(setup: Setup, rig: Rig, draws: seq<Draw>, crashTick: Option<nat>, i: nat)
    requires setup.Valid() && i < |draws|
    ensures var before := Before(setup, rig, draws, crashTick, i);
      && |RowsOf(setup, rig, draws, crashTick)| == |draws|
      && RowsOf(setup, rig, draws, crashTick)[i]
           == RowOf(LoopPhase(setup, before, draws[i], CrashAt(crashTick, before)))
    decreases |draws|
  {
    RowCount(setup, rig, draws, crashTick);
    if i > 0 {
      RowAt(setup, LoopTick(setup, rig, draws[0], CrashAt(crashTick, rig)), draws[1..], crashTick, i - 1);
      assert draws[..i][1..] == draws[1..][..i - 1];
    }
  }

  lemma {:induction false} RowCount(setup: Setup, rig: Rig, draws: seq<Draw>, crashTick: Option<nat>)
    requires setup.Valid()
    ensures |RowsOf(setup, rig, draws, crashTick)| == |draws|
    decreases |draws|
  {
    if draws != [] {
      RowCount(setup, LoopTick(setup, rig, draws[0], Crashes(crashTick, rig.plant.world.tick + 1)), draws[1..],
               crashTick);
    }
  }

  /** What a row shows of the rigs before and after it. */
  predicate Shows(before: Rig, row: Row, after: Rig, noise: real) {
    var w, v := before.plant.world, after.plant.world;
    && RowFollows(w, row) && ReadAs(w.config, row.tick, row.temp, noise, row.reading)
    && v.tick == row.tick && v.temp == row.temp && v.actuators[Fan] == row.fan && v.config == w.config
    && after.plant.sup.state == row.state
  }

  lemma RowShows(setup: Setup, rig: Rig, draws: seq<Draw>, crashTick: Option<nat>, i: nat)
    requires setup.Valid() && i < |draws|
    ensures var rows := RowsOf(setup, rig, draws, crashTick);
      |rows| == |draws|
      && Shows(Before(setup, rig, draws, crashTick, i), rows[i], Before(setup, rig, draws, crashTick, i + 1),
               draws[i].noise)
  {
    RowAt(setup, rig, draws, crashTick, i);
    RunAt(setup, rig, draws, crashTick, i);
    var before := Before(setup, rig, draws, crashTick, i);
    TickFollows(setup, before, draws[i], CrashAt(crashTick, before));
  }

  /** The trace obeys the world: every row follows, by the heat balance, from the temperature and the fan
      of the row before it, and shows what the sensor made of it. */
  lemma RowsObeyTheWorld(setup: Setup, rig: Rig, draws: seq<Draw>, crashTick: Option<nat>, i: nat)
    requires setup.Valid() && i < |draws|
    ensures var rows, w := RowsOf(setup, rig, draws, crashTick), Before(setup, rig, draws, crashTick, i).plant.world;
      && |rows| == |draws| && RowFollows(w, rows[i])
      && ReadAs(w.config, rows[i].tick, rows[i].temp, draws[i].noise, rows[i].reading)
      && (i > 0 ==> w.tick == rows[i - 1].tick && w.temp == rows[i - 1].temp && w.actuators[Fan] == rows[i - 1].fan)
  {
    RowShows(setup, rig, draws, crashTick, i);
    if i > 0 {
      RowShows(setup, rig, draws, crashTick, i - 1);
    }
  }

  // ----- Emergencies and broken sensors -----

  lemma PhaseEmergency(setup: Setup, rig: Rig, draw: Draw, crash: bool)
    requires CoolsWhenHot(setup)
    ensures var q := LoopPhase(setup, rig, draw, crash).plant;
      && (q.sup.emergency <==> Reading(q.world) >= setup.policy.emergencyC)
      && (q.sup.emergency ==> q.world.actuators[Fan] == On)
  {
    var w := StepWorld(rig.plant.world, draw);
    var q := PolicyPhase(setup, rig.plant, draw);
    DeviceSlots.PolicyFrame(setup, rig.plant, draw);
    EnforceCools(setup, Plant(w, rig.plant.sup), MetricsOf(w), w.time);
    if q.sup.state.Normal? {
      var safe := q.(sup := EnterSafeState(q.sup));
      EnforceCools(setup, safe, MetricsOf(q.world), q.world.time);
      EnforceFrame(setup, safe, MetricsOf(q.world), q.world.time);
      if Step(rig.controller, Observe(q.world)).Stepped? {
        IntentsCannotStopCooling(setup, q, Step(rig.controller, Observe(q.world)).emission.intents, q.world.time);
      }
    }
  }

  /** In every row the emergency is what the reading says, and in an emergency the fan is on. */
  lemma RowEmergency(setup: Setup, rig: Rig, draws: seq<Draw>, crashTick: Option<nat>, i: nat)
    requires CoolsWhenHot(setup) && i < |draws|
    ensures var rows := RowsOf(setup, rig, draws, crashTick);
      && |rows| == |draws|
      && (rows[i].emergency <==> rows[i].reading >= setup.policy.emergencyC)
      && (rows[i].emergency ==> rows[i].fan == On)
  {
    RowAt(setup, rig, draws, crashTick, i);
    var before := Before(setup, rig, draws, crashTick, i);
    PhaseEmergency(setup, before, draws[i], CrashAt(crashTick, before));
  }

  /** A sensor stuck at or above the emergency threshold keeps the fan on from the tick it breaks, however
      cool the device; stuck below, there is no emergency from then on, however hot it gets. */
  lemma BrokenSensorDecides(setup: Setup, rig: Rig, draws: seq<Draw>, crashTick: Option<nat>, i: nat)
    requires CoolsWhenHot(setup) && i < |draws|
    requires !rig.plant.world.config.sensorFault.NoFault?
    ensures var rows, config := RowsOf(setup, rig, draws, crashTick), rig.plant.world.config;
      var claim := if config.sensorFault.StuckHigh? then config.stuckHighC else config.stuckLowC;
      |rows| == |draws| && (rows[i].tick >= config.sensorFaultFromTick ==>
        rows[i].reading == claim
        && (if claim >= setup.policy.emergencyC then rows[i].emergency && rows[i].fan == On else !rows[i].emergency))
  {
    RowsObeyTheWorld(setup, rig, draws, crashTick, i);
    RowEmergency(setup, rig, draws, crashTick, i);
    SameConfig(setup, rig, draws[..i], crashTick);
  }

  lemma {:induction false} SameConfig(setup: Setup, rig: Rig, draws: seq<Draw>, crashTick: Option<nat>)
    requires setup.Valid()
    ensures RunLoop(setup, rig, draws, crashTick).plant.world.config == rig.plant.world.config
    decreases |draws|
  {
    if draws != [] {
      var crash := Crashes(crashTick, rig.plant.world.tick + 1);
      LoopFrame(setup, rig, draws[0], crash);
      SameConfig(setup, LoopTick(setup, rig, draws[0], crash), draws[1..], crashTick);
    }
  }

  // ----- While the controller has control -----

  /** A tick that the supervisor comes to in normal state, with no heartbeat missed and no crash: the row
      shows what the controller said to what the sensors claimed at that tick, and what was made of it. */
  lemma NormalPhase(setup: Setup, rig: Rig, draw: Draw)
    requires setup.Valid() && rig.plant.sup.state.Normal? && !Misses(setup, rig.plant)
    ensures var phase, q := LoopPhase(setup, rig, draw, false), PolicyPhase(setup, rig.plant, draw);
      var row := RowOf(phase);
      var seen := Observation(row.tick, row.time, map[TemperatureC := row.reading, DistanceCm := draw.distanceCm],
                              q.world.actuators);
      match Step(rig.controller, seen)
      case Fault => phase.faulted && row.intents == [] && row.verdicts == [] && phase.controller == rig.controller
      case Stepped(e) =>
        && !phase.faulted && row.intents == e.intents && phase.controller == e.after
        && row.verdicts == Verdicts(setup, q, e.intents, row.time)
        && phase.plant == ApplyIntents(setup, q, e.intents, row.time)
  {
    var w := StepWorld(rig.plant.world, draw);
    PolicyFlags(setup, Plant(w, rig.plant.sup), MetricsOf(w), w.time);
    DeviceSlots.PolicyFrame(setup, rig.plant, draw);
    LoopFrame(setup, rig, draw, false);
  }

  // ----- After a crash -----

  /** The heartbeat goes missing on this very tick. */
  predicate Misses(setup: Setup, p: Plant) {
    EmitHeartbeat in p.sup.allowed && p.sup.sinceHeartbeat + 1 > setup.policy.heartbeatMissLimit
  }

  /** The level a row's emergency clause starts the thermostat from. */
  function Forced(setup: Setup, reading: real, before: Level): Level {
    if reading >= setup.policy.emergencyC then On else before
  }

  lemma SafePhase(setup: Setup, rig: Rig, draw: Draw, crash: bool)
    requires setup.Valid() && Fan in setup.registry.actuators && rig.plant.sup.state.SafeState?
    ensures var phase := LoopPhase(setup, rig, draw, crash);
      var row := RowOf(phase);
      && row.state.SafeState? && row.intents == [] && row.verdicts == [] && phase.controller == rig.controller
      && Thermostatic(setup.policy, setup.registry.actuators[Fan], Some(row.reading),
                      Forced(setup, row.reading, rig.plant.world.actuators[Fan]), row.fan)
  {
    var w := StepWorld(rig.plant.world, draw);
    SafeStateIsAThermostat(setup, Plant(w, rig.plant.sup), MetricsOf(w), w.time, Fan);
    DeviceSlots.PolicyFrame(setup, rig.plant, draw);
  }

  lemma CrashPhase(setup: Setup, rig: Rig, draw: Draw)
    requires setup.Valid() && Fan in setup.registry.actuators
    requires rig.plant.sup.state.Normal? && !Misses(setup, rig.plant)
    ensures var phase := LoopPhase(setup, rig, draw, true);
      var row := RowOf(phase);
      && phase.faulted && row.state.SafeState? && row.intents == [] && row.verdicts == []
      && Thermostated(setup, row)
  {
    var w := StepWorld(rig.plant.world, draw);
    var q := PolicyPhase(setup, rig.plant, draw);
    PolicyFlags(setup, Plant(w, rig.plant.sup), MetricsOf(w), w.time);
    DeviceSlots.PolicyFrame(setup, rig.plant, draw);
    var safe := q.(sup := EnterSafeState(q.sup));
    SafeStateIsAThermostat(setup, safe, MetricsOf(q.world), q.world.time, Fan);
    EnforceFrame(setup, safe, MetricsOf(q.world), q.world.time);
  }

  /** The fan of a row is where a thermostat would have it, wherever it was before. */
  predicate Thermostated(setup: Setup, row: Row)
    requires Fan in setup.registry.actuators
  {
    var spec := setup.registry.actuators[Fan];
    && (row.reading >= setup.policy.coolingC ==> row.fan == spec.safeLevelWhenHot)
    && (row.reading < setup.policy.coolingC && row.reading <= setup.policy.coolingC - setup.policy.hysteresisC ==>
          row.fan == spec.defaultLevel)
  }

  lemma SafeRow(setup: Setup, rig: Rig, draws: seq<Draw>, crashTick: Option<nat>, i: nat)
    requires setup.Valid() && Fan in setup.registry.actuators && i < |draws|
    requires Before(setup, rig, draws, crashTick, i).plant.sup.state.SafeState?
    ensures var rows := RowsOf(setup, rig, draws, crashTick);
      && |rows| == |draws| && rows[i].state.SafeState? && rows[i].intents == [] && rows[i].verdicts == []
      && Thermostatic(setup.policy, setup.registry.actuators[Fan], Some(rows[i].reading),
                      Forced(setup, rows[i].reading,
                             Before(setup, rig, draws, crashTick, i).plant.world.actuators[Fan]),
                      rows[i].fan)
  {
    RowAt(setup, rig, draws, crashTick, i);
    var before := Before(setup, rig, draws, crashTick, i);
    SafePhase(setup, before, draws[i], CrashAt(crashTick, before));
  }

  lemma CrashRow(setup: Setup, rig: Rig, draws: seq<Draw>, k: nat, i: nat)
    requires setup.Valid() && Fan in setup.registry.actuators && i < |draws|
    requires Before(setup, rig, draws, Some(k), i).plant.sup.state.Normal?
    requires CrashAt(Some(k), Before(setup, rig, draws, Some(k), i))
    ensures var rows, before := RowsOf(setup, rig, draws, Some(k)), Before(setup, rig, draws, Some(k), i).plant;
      && |rows| == |draws| && rows[i].state.SafeState? && rows[i].intents == []
      && (!Misses(setup, before) ==> Thermostated(setup, rows[i]))
  {
    RowAt(setup, rig, draws, Some(k), i);
    var before := Before(setup, rig, draws, Some(k), i);
    if Misses(setup, before.plant) {
      MissedPhase(setup, before, draws[i]);
    } else {
      CrashPhase(setup, before, draws[i]);
    }
  }

  /** Once the supervisor has taken over it keeps control, the controller is not asked again, and from row
      to row the fan is run by the thermostat with its hysteresis. */
  lemma SafeRowsAreAThermostat(setup: Setup, rig: Rig, draws: seq<Draw>, crashTick: Option<nat>, i: nat)
    requires setup.Valid() && Fan in setup.registry.actuators && 0 < i < |draws|
    ensures var rows := RowsOf(setup, rig, draws, crashTick);
      && |rows| == |draws|
      && (rows[i - 1].state.SafeState? ==>
            && rows[i].state.SafeState? && rows[i].intents == [] && rows[i].verdicts == []
            && Thermostatic(setup.policy, setup.registry.actuators[Fan], Some(rows[i].reading),
                            Forced(setup, rows[i].reading, rows[i - 1].fan), rows[i].fan))
  {
    RowShows(setup, rig, draws, crashTick, i - 1);
    if Before(setup, rig, draws, crashTick, i).plant.sup.state.SafeState? {
      SafeRow(setup, rig, draws, crashTick, i);
    }
  }

  /** A controller that crashes from tick `k` on never acts again, and in every row from there, the very
      first included, the fan is on at a cooling temperature and at its default once well below it; only
      if a missed heartbeat ends control on that same tick does the thermostat start one row later. */
  lemma {:induction false} CrashedRunsAreCooled(setup: Setup, rig: Rig, draws: seq<Draw>, k: nat, i: nat)
    requires setup.Valid() && Fan in setup.registry.actuators && i < |draws|
    ensures var rows, before := RowsOf(setup, rig, draws, Some(k)), Before(setup, rig, draws, Some(k), i).plant;
      && |rows| == |draws|
      && (rows[i].tick >= k ==>
            && rows[i].state.SafeState? && rows[i].intents == []
            && (before.sup.state.SafeState? || !Misses(setup, before) ==> Thermostated(setup, rows[i])))
      && (rows[i].tick > k && i > 0 ==> before.sup.state.SafeState?)
    decreases i
  {
    RowShows(setup, rig, draws, Some(k), i);
    if i > 0 {
      CrashedRunsAreCooled(setup, rig, draws, k, i - 1);
      RowShows(setup, rig, draws, Some(k), i - 1);
    }
    var before := Before(setup, rig, draws, Some(k), i);
    if before.plant.sup.state.SafeState? {
      SafeRow(setup, rig, draws, Some(k), i);
    } else if CrashAt(Some(k), before) {
      CrashRow(setup, rig, draws, k, i);
    }
  }

  lemma MissedPhase(setup: Setup, rig: Rig, draw: Draw)
    requires setup.Valid() && Misses(setup, rig.plant)
    ensures var row := RowOf(LoopPhase(setup, rig, draw, true));
      row.state.SafeState? && row.intents == [] && row.verdicts == []
  {
    var w := StepWorld(rig.plant.world, draw);
    PolicyFlags(setup, Plant(w, rig.plant.sup), MetricsOf(w), w.time);
  }
}
