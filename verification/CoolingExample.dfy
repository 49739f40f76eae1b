/** The repository's own cooling proposal under the registry that ships, taken all the way: it
    validates, compiles to cooling, and in the default world is never rescued. It shows that the
    hypotheses of the theorems about compiled programs can be met together, and where they cannot. */
module CoolingExample {
  import opened Names
  import opened Manifests
  import opened Programs
  import opened Costs
  import opened Compiler
  import opened ShippedRegistry
  import opened ShippedManifests
  import opened Worlds
  import opened Supervisors
  import opened Harness
  import opened Thermal
  import opened Adaptation
  import opened BudgetProofs
  import opened NeverRescued
  import opened Runs
  import Validator
  import CompilerProofs

  const REQUESTED: seq<Capability> :=
    [ReadTemperature, FanOn, FanOff, EmitHeartbeat, EmitContextEvent, EmitCriticalEvent, EnterSafeIdle]

  const SORTED: seq<Capability> :=
    [EmitContextEvent, EmitCriticalEvent, EmitHeartbeat, EnterSafeIdle, FanOff, FanOn, ReadTemperature]

  function Activate(a: real): Condition { Condition(TemperatureC, GE, a) }

  function Recover(r: real): Condition { Condition(TemperatureC, LT, r) }

  /** The proposal for activation from `a` degrees up and recovery below `r`; by default 80 and 60. */
  function Proposal(a: real, r: real): Manifest {
    Manifest(
      "1.0", "m-event-sound", "pi_node_alpha", "event", NamedEvent("HEAT"), "base", "1.0.0",
      REQUESTED, [TemperatureC], [Fan], Single(Activate(a)), Single(Recover(r)), 300, 1.0,
      ResourceBudget(3.6, 64, 12), FallbackSafeIdle)
  }

  const SENSE := SensorBinding(ReadTemperature, TemperatureC, 17)
  const BEAT := IntentSpec(EmitHeartbeat, TelemetryIntent, None, None, None, Some(Heartbeat), None)
  const CONTEXT := IntentSpec(EmitContextEvent, TelemetryIntent, None, None, None, Some(NamedEvent("HEAT")), None)
  const CRITICAL :=
    IntentSpec(EmitCriticalEvent, TelemetryIntent, None, None, None, Some(NamedEvent("CRITICAL_TEMPERATURE")), None)
  const START := IntentSpec(FanOn, ActuatorIntent, Some(Fan), Some(On), Some(27), None, Some(12.0))
  const STOP := IntentSpec(FanOff, ActuatorIntent, Some(Fan), Some(Off), Some(27), None, Some(0.0))
  const IDLE := IntentSpec(EnterSafeIdle, SafetyIntent, None, None, None, None, None)

  const INTENTS := map[EmitContextEvent := CONTEXT, EmitCriticalEvent := CRITICAL, EmitHeartbeat := BEAT,
                       EnterSafeIdle := IDLE, FanOff := STOP, FanOn := START]

  lemma SortedRequest()
    ensures Sorted(REQUESTED) == SORTED
  {
    InOrderAlready();
    SortedIsItself(SORTED);
    SameMembers();
    OrderDoesNotMatter(REQUESTED, SORTED, REGISTRY);
  }

  lemma InOrderAlready()
    ensures InOrder(SORTED)
  {
    EmitContextEventBeforeEmitCriticalEvent();
    EmitCriticalEventBeforeEmitHeartbeat();
    EmitHeartbeatBeforeEnterSafeIdle();
    EnterSafeIdleBeforeFanOff();
    FanOffBeforeFanOn();
    FanOnBeforeReadTemperature();
    SevenInOrder(Before, EmitContextEvent, EmitCriticalEvent, EmitHeartbeat, EnterSafeIdle, FanOff, FanOn,
                 ReadTemperature);
  }

  lemma SevenInOrder<A(!new)>(before: (A, A) -> bool, a: A, b: A, c: A, d: A, e: A, f: A, g: A)
    requires before(a, b) && before(b, c) && before(c, d) && before(d, e) && before(e, f) && before(f, g)
    ensures var s := [a, b, c, d, e, f, g]; forall i :: 0 <= i < |s| - 1 ==> before(s[i], s[i + 1])
  {
  }

  lemma SameMembers()
    ensures multiset(REQUESTED) == multiset(SORTED)
  {
  }

  lemma AllKnown()
    ensures forall n :: n in SORTED ==> n in REGISTRY.capabilities
    ensures forall n :: n in REQUESTED ==> n in REGISTRY.capabilities
  {
  }

  lemma TotalCost()
    ensures TotalCpu(REQUESTED, REGISTRY) == 1.3 && TotalMemory(REQUESTED, REGISTRY) == 24
  {
    CpuCost();
    MemoryCost();
  }

  lemma CpuCost()
    ensures TotalCpu(REQUESTED, REGISTRY) == 1.3
  {
    Tails();
  }

  lemma MemoryCost()
    ensures TotalMemory(REQUESTED, REGISTRY) == 24
  {
    Tails();
  }

  lemma Tails()
    ensures forall i :: 1 <= i <= 5 ==> REQUESTED[i..][1..] == REQUESTED[i + 1..]
  {
    assert REQUESTED[1..][1..] == REQUESTED[2..];
    assert REQUESTED[2..][1..] == REQUESTED[3..];
    assert REQUESTED[3..][1..] == REQUESTED[4..];
    assert REQUESTED[4..][1..] == REQUESTED[5..];
    assert REQUESTED[5..][1..] == REQUESTED[6..];
  }

  lemma NoOverlap(a: real, r: real, left: Condition, right: Condition)
    requires r <= a
    ensures !Validator.Justified(Proposal(a, r), REGISTRY, SCHEMA, Validator.Overlap(left, right))
  {
    Validator.ProbesAreExact(Activate(a), Recover(r));
  }

  lemma ReadsTemperature(a: real, r: real)
    ensures Proposal(a, r).MetricsUsed() == {TemperatureC}
  {
  }

  lemma IsSensible(a: real, r: real)
    ensures Sensible(Proposal(a, r))
  {
    TotalCost();
    AllKnown();
    ReadsTemperature(a, r);
  }

  lemma IsValid(a: real, r: real)
    requires r <= a
    ensures Validator.Valid(Proposal(a, r), REGISTRY, SCHEMA)
  {
    IsSensible(a, r);
    forall left, right ensures !Validator.Justified(Proposal(a, r), REGISTRY, SCHEMA, Validator.Overlap(left, right)) {
      NoOverlap(a, r, left, right);
    }
    SensibleIsValid(Proposal(a, r));
  }

  lemma FirstBuilt(a: real, r: real)
    ensures EmitContextEvent in REGISTRY.capabilities && EmitCriticalEvent in REGISTRY.capabilities
    ensures EmitHeartbeat in REGISTRY.capabilities && EnterSafeIdle in REGISTRY.capabilities
    ensures FragmentsOf([] + [EmitContextEvent] + [EmitCriticalEvent] + [EmitHeartbeat] + [EnterSafeIdle], Proposal(a, r),
                        REGISTRY)
         == Ok(Fragments([], map[][EmitContextEvent := CONTEXT][EmitCriticalEvent := CRITICAL]
                             [EmitHeartbeat := BEAT][EnterSafeIdle := IDLE]))
  {
    var fs := Fragments([], map[]);
    OneMoreBuilt([], EmitContextEvent, Proposal(a, r), fs, IntentFragment(CONTEXT));
    fs := AddFragment(fs, EmitContextEvent, IntentFragment(CONTEXT));
    OneMoreBuilt([] + [EmitContextEvent], EmitCriticalEvent, Proposal(a, r), fs, IntentFragment(CRITICAL));
    fs := AddFragment(fs, EmitCriticalEvent, IntentFragment(CRITICAL));
    OneMoreBuilt([] + [EmitContextEvent] + [EmitCriticalEvent], EmitHeartbeat, Proposal(a, r), fs, IntentFragment(BEAT));
    fs := AddFragment(fs, EmitHeartbeat, IntentFragment(BEAT));
    OneMoreBuilt([] + [EmitContextEvent] + [EmitCriticalEvent] + [EmitHeartbeat], EnterSafeIdle, Proposal(a, r), fs,
                 IntentFragment(IDLE));
  }

  lemma Built(a: real, r: real)
    ensures forall n :: n in SORTED ==> n in REGISTRY.capabilities
    ensures FragmentsOf(SORTED, Proposal(a, r), REGISTRY) == Ok(Fragments([SENSE], INTENTS))
  {
    AllKnown();
    FirstBuilt(a, r);
    var names := [] + [EmitContextEvent] + [EmitCriticalEvent] + [EmitHeartbeat] + [EnterSafeIdle];
    var fs := FragmentsOf(names, Proposal(a, r), REGISTRY).value;
    OneMoreBuilt(names, FanOff, Proposal(a, r), fs, IntentFragment(STOP));
    fs := AddFragment(fs, FanOff, IntentFragment(STOP));
    OneMoreBuilt(names + [FanOff], FanOn, Proposal(a, r), fs, IntentFragment(START));
    fs := AddFragment(fs, FanOn, IntentFragment(START));
    OneMoreBuilt(names + [FanOff] + [FanOn], ReadTemperature, Proposal(a, r), fs, SensorFragment(SENSE));
    assert SORTED == names + [FanOff] + [FanOn] + [ReadTemperature];
    assert fs.intents == INTENTS && fs.sensors + [SENSE] == [SENSE];
  }

  function Compiled(a: real, r: real): Program {
    Program(
      ThermalCooling, "m-event-sound", "h", "event", "pi_node_alpha", "base", "1.0.0", "capability_registry_v1", 1.0,
      300, 95.0, [SENSE],
      [Rule(RActivate, Some(Single(Activate(a))), [START]), Rule(RRecover, Some(Single(Recover(r))), [STOP]),
       Rule(RCritical, Some(Single(Condition(TemperatureC, GE, 95.0))), [CRITICAL]),
       Rule(RContext, Some(Single(Activate(a))), [CONTEXT]), Rule(RHeartbeat, None, [BEAT])],
      [IDLE], FallbackSafeIdle, ProgramBudget(3.6, 64, 12, 1.3, 24), 5)
  }

  lemma AllNeeded(a: real, r: real)
    ensures Needed(ThermalCooling, Proposal(a, r)) == INTENTS.Keys
    ensures RulesOf(ThermalCooling, Proposal(a, r), INTENTS) == Compiled(a, r).rules
  {
    assert FanOn in REQUESTED && FanOff in REQUESTED && EmitHeartbeat in REQUESTED && EmitContextEvent in REQUESTED
        && EmitCriticalEvent in REQUESTED;
    assert TemperatureC in Proposal(a, r).sensorInputs;
  }

  lemma AssembledProgram(a: real, r: real)
    ensures Assemble("h", Proposal(a, r), REGISTRY, ThermalCooling, Fragments([SENSE], INTENTS)) == Ok(Compiled(a, r))
  {
    assert FanOn in REQUESTED;
    HoldIsFive(Proposal(a, r));
    TotalCost();
    AllNeeded(a, r);
  }

  lemma WiredProgram(a: real, r: real)
    ensures CheckPins(Compiled(a, r), SCHEMA) == Ok(Compiled(a, r))
  {
    assert forall pin :: pin in Compiled(a, r).PinsUsed() ==> pin == 17 || pin == 27;
  }

  lemma ChosenPattern()
    ensures SelectPattern(set n | n in REQUESTED) == Some(ThermalCooling)
  {
    assert (set n | n in REQUESTED)
        == {ReadTemperature, FanOn, FanOff, EmitHeartbeat, EmitContextEvent, EmitCriticalEvent, EnterSafeIdle};
  }

  function HashOf(m: Manifest): Hash { "h" }

  lemma Compiles(a: real, r: real)
    ensures Compile(HashOf, Proposal(a, r), REGISTRY, SCHEMA) == Ok(Compiled(a, r))
  {
    AllKnown();
    SortedRequest();
    Built(a, r);
    ChosenPattern();
    AssembledProgram(a, r);
    WiredProgram(a, r);
    StagesCompile(HashOf, Proposal(a, r), REGISTRY, SCHEMA, Fragments([SENSE], INTENTS), ThermalCooling, Compiled(a, r));
  }

  lemma IsWellFormed(a: real, r: real)
    ensures Proposal(a, r).WellFormed()
  {
  }

  /** It validates, and compiles to a cooling program. */
  lemma CompilesToCooling(a: real, r: real)
    requires r <= a
    ensures CompilerProofs.CompilesToCooling(HashOf, Proposal(a, r), REGISTRY, SCHEMA, Compiled(a, r))
  {
    IsValid(a, r);
    IsWellFormed(a, r);
    Compiles(a, r);
  }

  // ----- In the default world -----

  const SETUP := Setup(DEFAULT_POLICY, REGISTRY, SCHEMA)

  /** The default device: one-second ticks, the default losses, an honest sensor, and heating at two
      degrees a second at most, which is the rate of the overheating scenarios. */
  predicate DefaultWorld(cfg: WorldConfig) {
    && cfg.tickSeconds == 1.0 && cfg.ambientC == 25.0
    && cfg.kAmbient == 0.02 && cfg.kFan == 0.15 && cfg.fanEffectiveness == 1.0
    && HonestSensor(cfg) && HeatWithin(cfg, cfg.load, 2.0) && cfg.initialDeviceC <= 80.5
  }

  /** What five ticks without the fan add to a temperature of 80.5. */
  const TOP := 84.7755245424

  lemma FiveStepsWithoutFan(cfg: WorldConfig)
    requires DefaultWorld(cfg)
    ensures Ramp(cfg, 2.0, 80.5, 5) == TOP
  {
    assert WithoutFanFor(cfg, 2.0, 80.5, 0) == 80.5;
    assert WithoutFanFor(cfg, 2.0, 80.5, 1) == 81.39;
    assert WithoutFanFor(cfg, 2.0, 80.5, 2) == 82.2622;
    assert WithoutFanFor(cfg, 2.0, 80.5, 3) == 83.116956;
    assert WithoutFanFor(cfg, 2.0, 80.5, 4) == 83.95461688;
    assert WithoutFanFor(cfg, 2.0, 80.5, 5) == TOP;
  }

  lemma {:induction false} FewStepsFrom(cfg: WorldConfig, x: real, k: nat)
    requires DefaultWorld(cfg) && x <= 61.0 && k <= 5
    ensures Ramp(cfg, 2.0, x, k) <= 61.0 + 2.5 * k as real
    decreases k
  {
    if k > 0 {
      FewStepsFrom(cfg, x, k - 1);
      WithoutFanMonotone(cfg, 2.0, WithoutFanFor(cfg, 2.0, x, k - 1), 61.0 + 2.5 * (k - 1) as real);
    }
  }

  lemma FiveStepsWithFan(cfg: WorldConfig)
    requires DefaultWorld(cfg)
    ensures WithFanFor(cfg, 2.0, TOP, 5) <= 61.0
  {
    assert WithFanFor(cfg, 2.0, TOP, 0) == TOP;
    assert WithFanFor(cfg, 2.0, TOP, 1) <= 76.7;
    assert WithFanFor(cfg, 2.0, TOP, 2) <= 70.0;
    assert WithFanFor(cfg, 2.0, TOP, 3) <= 64.4;
    assert WithFanFor(cfg, 2.0, TOP, 4) <= 59.8;
    assert WithFanFor(cfg, 2.0, TOP, 5) <= 56.0;
  }

  lemma FanIsGood(cfg: WorldConfig)
    requires DefaultWorld(cfg)
    ensures Coolable(cfg, 2.0, 0.5, 80.5)
  {
  }

  /** Twelve commands, a hold of five ticks and a rest of six in turn, take sixty-six seconds. */
  lemma SixTicksOfRestAreEnough()
    ensures Roomy(DEFAULT_POLICY.windowSeconds, 12, 5, 6, 1.0)
  {
    SpanInPairs(12, 5.0, 6.0);
    assert GapTo(false, 5, 6, 1.0) == 5.0 && GapTo(true, 5, 6, 1.0) == 6.0;
  }

  /** Without a rest they fill the window to the second: twelve holds, and the ceiling is twelve. */
  lemma HoldsAloneAreNotEnough()
    ensures DEFAULT_POLICY.windowSeconds == 12.0 * (5.0 * 1.0)
    ensures !Roomy(DEFAULT_POLICY.windowSeconds, 12, 5, 0, 1.0)
    ensures TransitionCeiling(REGISTRY.capabilities[FanOn]) == 12 && TransitionCeiling(REGISTRY.capabilities[FanOff]) == 12
  {
    RoomyByHold(DEFAULT_POLICY.windowSeconds, 12, 5, 1.0, 5.0);
  }

  const BY_FAN := Bounds(2.0, 0.5, 80.0, 80.5, 80.0, 61.0, true, 6)
  const BY_DEAD_BAND := Bounds(2.0, 0.5, 80.0, 80.5, 80.0, 60.5, false, 6)

  /** The rest comes from the fan: five ticks of it cool the device so far that it needs more than six
      to be hot again, whatever the recovery condition. */
  lemma FanGivesRest(cfg: WorldConfig, recovery: Trigger)
    requires DefaultWorld(cfg)
    ensures Dwells(cfg, Single(Activate(80.0)), recovery, 5, BY_FAN)
  {
    FiveStepsWithoutFan(cfg);
    FiveStepsWithFan(cfg);
    FewStepsFrom(cfg, 61.0, 5);
  }

  /** And it comes from the dead band between 60 and 80 degrees alone. */
  lemma DeadBandGivesRest(cfg: WorldConfig)
    requires DefaultWorld(cfg)
    ensures Dwells(cfg, Single(Activate(80.0)), Single(Recover(60.0)), 5, BY_DEAD_BAND)
  {
    FewStepsFrom(cfg, 60.5, 5);
  }

  lemma OneProducer()
    ensures CompilerProofs.OnlyTemperatureIsProduced(REGISTRY)
  {
  }

  lemma CeilingIsTwelve()
    ensures forall c :: c in REGISTRY.capabilities && c in {FanOn, FanOff} ==>
      TransitionCeiling(REGISTRY.capabilities[c]) == 12
  {
  }

  lemma ProgramIsReady(a: real, r: real)
    requires r <= a
    ensures Ready(SETUP, Compiled(a, r), Single(Activate(a)), Single(Recover(r)), 12)
  {
    ShippedFilesAreWellFormed();
    OneProducer();
    CompilesToCooling(a, r);
    CeilingIsTwelve();
    CompiledIsReady(HashOf, Proposal(a, r), SETUP, Compiled(a, r), 12);
  }

  /** Any cooling program with the shipped hold that activates at 80 degrees, whatever its recovery
      condition: with any readings within half a degree, for its whole lifetime, never above 84.78
      degrees, never an emergency, never a refused command. */
  lemma {:induction false} StaysBelow(setup: Setup, p: Program, recovery: Trigger, cfg: WorldConfig, initial: Draw,
                                      draws: seq<Draw>)
    requires Ready(setup, p, Single(Activate(80.0)), recovery, 12) && p.minHoldTicks == 5
    requires setup.policy == DEFAULT_POLICY && DefaultWorld(cfg)
    requires |draws| < p.maximumDurationSeconds && forall i :: 0 <= i < |draws| ==> Accurate(draws[i], 0.5)
    ensures var start := ScenarioStart(p, cfg, initial);
      && RunLoop(setup, start, draws, None).plant.sup.emergencyActivations == 0
      && forall i :: 0 <= i < |RowsOf(setup, start, draws, None)| ==>
           Untroubled(RowsOf(setup, start, draws, None)[i], TOP)
  {
    FanIsGood(cfg);
    FanGivesRest(cfg, recovery);
    FiveStepsWithoutFan(cfg);
    SixTicksOfRestAreEnough();
    ThresholdsOf(Single(Activate(80.0)), Single(Recover(60.0)), 80.0, 60.0);
    ScenarioIsNeverRescued(setup, p, Single(Activate(80.0)), recovery, cfg, initial, draws, 12, BY_FAN);
  }

  /** With readings that may stray further it can happen: the program compiled above, in a world with
      sensor noise, has a run without any emergency that ends in a command refused for the budget and
      with the controller believing something false of its fan. */
  lemma {:induction false} CanBeRefused(setup: Setup, p: Program, cfg: WorldConfig, initial: Draw)
    returns (draws: seq<Draw>)
    requires Ready(setup, p, Single(Activate(80.0)), Single(Recover(60.0)), 12) && p.minHoldTicks == 5
    requires p.maximumDurationSeconds == 300 && setup.policy == DEFAULT_POLICY
    requires DefaultWorld(cfg) && cfg.sensorNoise != 0.0
    ensures var start := ScenarioStart(p, cfg, initial);
      && Throughout(Ticker(setup), Quiet(setup), start, draws)
      && !BudgetNeverRefuses(RowsOf(setup, start, draws, None))
      && !KnowsItsFan(RunLoop(setup, start, draws, None))
  {
    var start := ScenarioStart(p, cfg, initial);
    ScenarioIsFresh(setup, p, cfg, initial);
    draws := SomeRunIsRefused(setup, start, p, Single(Activate(80.0)), Single(Recover(60.0)), 12, 85.0, 55.0);
  }

  /** The program compiled above is one that all of these apply to. */
  lemma ProgramFits(a: real, r: real)
    requires r <= a
    ensures Ready(SETUP, Compiled(a, r), Single(Activate(a)), Single(Recover(r)), 12) && SETUP.policy == DEFAULT_POLICY
    ensures Compiled(a, r).minHoldTicks == 5 && Compiled(a, r).maximumDurationSeconds == 300
  {
    ProgramIsReady(a, r);
  }
}
